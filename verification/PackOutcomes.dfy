/**
 * What a packed retrieval holds (packages/core/src/retrieve-budget.ts:98-220), item by item: the order
 * facts compete in, which of them are taken at their turn, and what is reported of the rest.
 */
module PackOutcomes {
  import opened Options
  import opened Seqs
  import opened RetrieveBudget

  // ---------------------------------------------------------------- the order

  /** A fact's authority, held between 1 and 1.5; 1 when none is given. */
  function Weight(input: Input, f: Fact): real {
    if input.factAuthority.None? then 1.0
    else
      var a := input.factAuthority.value(f);
      if a <= 1.0 then 1.0 else if a >= 1.5 then 1.5 else a
  }

  /** Relevance to the query, weighted; all alike without one. */
  function Relevance(input: Input, f: Fact): real {
    if input.scoreFact.None? then 0.0
    else input.scoreFact.value(if |f.entities| == 0 then f.content else f.content + "\n" + Join(f.entities)) * Weight(input, f)
  }

  /** Relevance decides, then weighted confidence, then the later date. */
  predicate NoWorse(input: Input, a: Fact, b: Fact) {
    || Relevance(input, a) > Relevance(input, b)
    || (Relevance(input, a) == Relevance(input, b)
        && (a.confidence * Weight(input, a) > b.confidence * Weight(input, b)
            || (a.confidence * Weight(input, a) == b.confidence * Weight(input, b) && a.addedAt >= b.addedAt)))
  }

  /** The facts with one relevance, confidence and date, in the order they stand. */
  function Equals(input: Input, at: Rank, facts: seq<Fact>): seq<Fact> {
    Filter(facts, f => Relevance(input, f) == at.score && f.confidence * Weight(input, f) == at.confidence && f.addedAt == at.addedAt)
  }

  /** The same facts, none before a better one, equals in the order they came. */
  ghost predicate RankLaw(input: Input, ranked: seq<Fact>) {
    && multiset(ranked) == multiset(input.facts)
    && (forall i, j :: 0 <= i < j < |ranked| ==> NoWorse(input, ranked[i], ranked[j]))
    && (forall at: Rank :: Equals(input, at, ranked) == Equals(input, at, input.facts))
  }

  lemma RankIs(input: Input, f: Fact)
    ensures RankOf(input, f) == Rank(Relevance(input, f), f.confidence * Weight(input, f), f.addedAt)
  {
    assert SearchText(f) == if |f.entities| == 0 then f.content else f.content + "\n" + Join(f.entities);
    assert AuthorityOf(input, f) == Weight(input, f);
    if input.scoreFact.None? { assert RawScore(input, f) == 0.0; }
  }

  lemma NoWorseIs(input: Input, a: Fact, b: Fact)
    ensures NoWorse(input, a, b) <==> !Ahead(Ranking(input)(b), Ranking(input)(a))
  {
    hide Weight, Relevance, RankOf;
    RankIs(input, a);
    RankIs(input, b);
  }

  lemma TiedIs(input: Input, at: Rank, f: Fact)
    ensures Tied(at, Ranking(input)(f)) <==>
      (Relevance(input, f) == at.score && f.confidence * Weight(input, f) == at.confidence && f.addedAt == at.addedAt)
  {
    hide Weight, Relevance, RankOf;
    RankIs(input, f);
  }

  lemma EqualsAre(input: Input, at: Rank, facts: seq<Fact>)
    ensures Ties(Ranking(input), at, facts) == Equals(input, at, facts)
  {
    hide Tied, Weight, Relevance, Ranking, Filter;
    var rank := Ranking(input);
    forall f | f in facts
      ensures Tied(at, rank(f)) == (Relevance(input, f) == at.score && f.confidence * Weight(input, f) == at.confidence && f.addedAt == at.addedAt)
    {
      TiedIs(input, at, f);
    }
    FilterSame(facts, f => Tied(at, rank(f)), f => Relevance(input, f) == at.score && f.confidence * Weight(input, f) == at.confidence && f.addedAt == at.addedAt);
  }

  lemma FactsAreRanked(input: Input)
    ensures RankLaw(input, Ranked(input))
  {
    hide StableSort, NoWorse, Equals, Ranking, Ahead, Ties;
    var rank, ranked := Ranking(input), Ranked(input);
    RankingIsStable(rank, input.facts, Rank(0.0, 0.0, 0));
    forall i, j | 0 <= i < j < |ranked| ensures NoWorse(input, ranked[i], ranked[j]) {
      NoWorseIs(input, ranked[i], ranked[j]);
    }
    forall at: Rank ensures Equals(input, at, ranked) == Equals(input, at, input.facts) {
      RankingIsStable(rank, input.facts, at);
      EqualsAre(input, at, ranked);
      EqualsAre(input, at, input.facts);
    }
  }

  // ---------------------------------------------------------------- the fills

  /** An item is taken exactly when, at its turn, it fits in what those taken before it have left. */
  predicate FillLaw(costs: seq<nat>, room: int, flags: seq<bool>) {
    && |flags| == |costs|
    && forall i :: 0 <= i < |costs| ==> (flags[i] <==> Sum(Select(costs[..i], flags[..i], true)) + costs[i] <= room)
  }

  lemma {:induction false} TakenPrefix(costs: seq<nat>, room: int, i: nat)
    requires i <= |costs|
    ensures Taken(costs, room)[..i] == Taken(costs[..i], room)
  {
    if i < |costs| {
      TakenPrefix(costs[..|costs| - 1], room, i);
      assert costs[..|costs| - 1][..i] == costs[..i];
    } else {
      assert costs[..i] == costs;
    }
  }

  lemma TakenIs(costs: seq<nat>, room: int)
    ensures FillLaw(costs, room, Taken(costs, room))
  {
    hide Taken, Select, Sum;
    forall i | 0 <= i < |costs|
      ensures Taken(costs, room)[i] <==> Sum(Select(costs[..i], Taken(costs, room)[..i], true)) + costs[i] <= room
    {
      TakenPrefix(costs, room, i);
      FillIsGreedy(costs, room, i);
      FillSpends(costs[..i], room);
    }
  }

  // ---------------------------------------------------------------- the packing

  /** The whole of the digest, when there is one and it fits. */
  function DigestHeld(input: Input): Option<string> {
    if input.digest.Some? && |input.digest.value| > 0 && |input.digest.value| <= input.maxChars then input.digest else None
  }

  function Refusal(input: Input, f: Fact, starved: DropReason): Drop {
    Drop(kind := FactDrop, id := Some(f.id), chars := |f.content|, reason := starved,
         score := if input.scoreFact.None? then None
                  else Some(input.scoreFact.value(if |f.entities| == 0 then f.content else f.content + "\n" + Join(f.entities))))
  }

  /** What is reported refused: the digest, the facts, the events, in that order. */
  function Refusals(input: Input, facts: seq<Fact>, events: seq<Event>, starved: DropReason): seq<Drop> {
    (if input.digest.Some? && |input.digest.value| > 0 && |input.digest.value| > input.maxChars
     then [Drop(DigestDrop, None, |input.digest.value|, DigestTooLarge, None)] else [])
    + seq(|facts|, i requires 0 <= i < |facts| => Refusal(input, facts[i], starved))
    + seq(|events|, i requires 0 <= i < |events| => Drop(EventDrop, Some(events[i].id), |events[i].content|, BudgetExhausted, None))
  }

  /**
   * The digest whole or not at all; then facts in rank order within two fifths of the budget and
   * what is left of it; then events in the order given. The first hundred refusals are itemised,
   * each fact's with the bound that starved the facts.
   */
  ghost predicate PackLaw(input: Input, r: Packed, ranked: seq<Fact>, flags: seq<bool>, eventFlags: seq<bool>) {
    var share := r.budget.factShareCap;
    var left := input.maxChars - if DigestHeld(input).Some? then |DigestHeld(input).value| else 0;
    && r.digest == DigestHeld(input)
    && 5 * share <= 2 * input.maxChars < 5 * share + 5
    && RankLaw(input, ranked)
    && FillLaw(FactCosts(ranked), if share <= left then share else left, flags)
    && r.facts == Select(ranked, flags, true)
    && FillLaw(EventCosts(input.events), left - Sum(FactCosts(r.facts)), eventFlags)
    && r.events == Select(input.events, eventFlags, true)
    && var drops := Refusals(input, Select(ranked, flags, false), Select(input.events, eventFlags, false), if share <= left then FactShareCap else BudgetExhausted);
       && r.budget.dropped == (if |drops| <= 100 then drops else drops[..100])
       && r.budget.itemsOmitted == |drops| - |r.budget.dropped|
  }

  lemma RefusalsAre(input: Input)
    ensures AllDrops(input) == Refusals(input, Select(Ranked(input), FactFlags(input), false), Select(input.events, EventFlags(input), false), FactReason(input))
  {
    hide Ranked, FactFlags, EventFlags, Select, FactReason;
    var facts := Select(Ranked(input), FactFlags(input), false);
    var starved := FactReason(input);
    assert FactDrops(input, facts) == seq(|facts|, i requires 0 <= i < |facts| => Refusal(input, facts[i], starved));
  }

  lemma SpentOnFacts(input: Input)
    ensures FactChars(input) == Sum(FactCosts(Select(Ranked(input), FactFlags(input), true)))
  {
    FillSpends(FactCosts(Ranked(input)), Allowance(input));
    SelectFactCosts(Ranked(input), FactFlags(input), true);
  }

  /** A packing keeps to the law. */
  lemma PackIs(input: Input)
    ensures PackLaw(input, Pack(input), Ranked(input), FactFlags(input), EventFlags(input))
  {
    hide Ranked, Taken, Select, Sum, RankLaw, FillLaw, Refusals, AllDrops, Left;
    FactsAreRanked(input);
    TakenIs(FactCosts(Ranked(input)), Allowance(input));
    TakenIs(EventCosts(input.events), EventRoom(input));
    SpentOnFacts(input);
    RefusalsAre(input);
  }
}
