/** Packing a retrieval into a declared character budget (packages/core/src/retrieve-budget.ts). */
module RetrieveBudget {
  import opened Options
  import opened Seqs

  /** `addedAt` is the position of the timestamp in the order timestamps compare in. */
  datatype Fact = Fact(id: string, content: string, confidence: real, addedAt: int, entities: seq<string>)
  datatype Event = Event(id: string, content: string)

  datatype DropKind = DigestDrop | FactDrop | EventDrop
  datatype DropReason = BudgetExhausted | FactShareCap | DigestTooLarge
  datatype Drop = Drop(kind: DropKind, id: Option<string>, chars: nat, reason: DropReason, score: Option<real>)

  datatype Input = Input(
    digest: Option<string>,
    facts: seq<Fact>,
    events: seq<Event>,
    maxChars: int,
    scoreFact: Option<string -> real>,
    factAuthority: Option<Fact -> real>)

  datatype Report = Report(
    usedChars: int,
    digestChars: int,
    factChars: int,
    eventChars: int,
    factShareCap: int,
    droppedCounts: map<DropKind, nat>,
    dropped: seq<Drop>,
    itemsOmitted: nat)

  datatype Packed = Packed(digest: Option<string>, facts: seq<Fact>, events: seq<Event>, budget: Report)

  const MAX_DROP_DETAIL_ITEMS := 100

  // ---------------------------------------------------------------- ranking

  function Join(words: seq<string>): string {
    if words == [] then "" else if |words| == 1 then words[0] else words[0] + " " + Join(words[1..])
  }

  function SearchText(fact: Fact): string {
    if fact.entities == [] then fact.content else fact.content + "\n" + Join(fact.entities)
  }

  function Clamp(value: real): (r: real)
    ensures 1.0 <= r <= 1.5
  {
    if value < 1.0 then 1.0 else if value > 1.5 then 1.5 else value
  }

  /** What a fact competes with. */
  datatype Rank = Rank(score: real, confidence: real, addedAt: int)

  function AuthorityOf(input: Input, fact: Fact): (r: real)
    ensures 1.0 <= r <= 1.5
  {
    if input.factAuthority.Some? then Clamp(input.factAuthority.value(fact)) else 1.0
  }

  function RawScore(input: Input, fact: Fact): real {
    if input.scoreFact.Some? then input.scoreFact.value(SearchText(fact)) else 0.0
  }

  function RankOf(input: Input, fact: Fact): Rank {
    Rank(RawScore(input, fact) * AuthorityOf(input, fact), fact.confidence * AuthorityOf(input, fact), fact.addedAt)
  }

  /** The comparator puts `a` strictly before `b`. */
  predicate Ahead(a: Rank, b: Rank) {
    if a.score != b.score then a.score > b.score
    else if a.confidence != b.confidence then a.confidence > b.confidence
    else a.addedAt > b.addedAt
  }

  /** How a fact ranks, as a function of the fact. */
  function Ranking(input: Input): Fact -> Rank {
    f => RankOf(input, f)
  }

  /** Insertion behind everything that is not strictly worse, as a stable sort places equals. */
  function Insert(rank: Fact -> Rank, sorted: seq<Fact>, fact: Fact): seq<Fact> {
    if sorted == [] || !Ahead(rank(fact), rank(sorted[|sorted| - 1])) then sorted + [fact]
    else Insert(rank, sorted[..|sorted| - 1], fact) + [sorted[|sorted| - 1]]
  }

  function StableSort(rank: Fact -> Rank, facts: seq<Fact>): seq<Fact> {
    if facts == [] then [] else Insert(rank, StableSort(rank, facts[..|facts| - 1]), facts[|facts| - 1])
  }

  /** `rankFacts`. */
  function RankFacts(input: Input, facts: seq<Fact>): seq<Fact> {
    StableSort(Ranking(input), facts)
  }

  predicate SortedBy(rank: Fact -> Rank, facts: seq<Fact>) {
    forall i, j :: 0 <= i < j < |facts| ==> !Ahead(rank(facts[j]), rank(facts[i]))
  }

  lemma SortedMore(rank: Fact -> Rank, facts: seq<Fact>, last: Fact)
    requires SortedBy(rank, facts) && forall i :: 0 <= i < |facts| ==> !Ahead(rank(last), rank(facts[i]))
    ensures SortedBy(rank, facts + [last])
  {
  }

  lemma {:induction false} InsertPermutes(rank: Fact -> Rank, sorted: seq<Fact>, fact: Fact)
    ensures multiset(Insert(rank, sorted, fact)) == multiset(sorted) + multiset{fact}
  {
    if sorted != [] && Ahead(rank(fact), rank(sorted[|sorted| - 1])) {
      var n := |sorted| - 1;
      InsertPermutes(rank, sorted[..n], fact);
      assert sorted == sorted[..n] + [sorted[n]];
    }
  }

  lemma {:induction false} InsertSorts(rank: Fact -> Rank, sorted: seq<Fact>, fact: Fact)
    requires SortedBy(rank, sorted)
    ensures SortedBy(rank, Insert(rank, sorted, fact))
  {
    if sorted == [] || !Ahead(rank(fact), rank(sorted[|sorted| - 1])) {
      SortedMore(rank, sorted, fact);
    } else {
      var n := |sorted| - 1;
      var r := Insert(rank, sorted[..n], fact);
      InsertSorts(rank, sorted[..n], fact);
      InsertPermutes(rank, sorted[..n], fact);
      forall i | 0 <= i < |r| ensures !Ahead(rank(sorted[n]), rank(r[i])) {
        assert r[i] in multiset(r);
        assert r[i] == fact || r[i] in sorted[..n];
      }
      SortedMore(rank, r, sorted[n]);
    }
  }

  predicate Tied(a: Rank, b: Rank) {
    !Ahead(a, b) && !Ahead(b, a)
  }

  /** The facts that tie with `at`, in the order they stand. */
  function Ties(rank: Fact -> Rank, at: Rank, facts: seq<Fact>): seq<Fact> {
    Filter(facts, f => Tied(at, rank(f)))
  }

  lemma TiesMore(rank: Fact -> Rank, at: Rank, facts: seq<Fact>, fact: Fact)
    ensures Ties(rank, at, facts + [fact]) == Ties(rank, at, facts) + if Tied(at, rank(fact)) then [fact] else []
  {
    assert (facts + [fact])[..|facts|] == facts;
  }

  lemma InsertMore(rank: Fact -> Rank, sorted: seq<Fact>, last: Fact, fact: Fact)
    ensures Insert(rank, sorted + [last], fact)
         == if Ahead(rank(fact), rank(last)) then Insert(rank, sorted, fact) + [last] else sorted + [last] + [fact]
  {
    assert (sorted + [last])[..|sorted|] == sorted;
  }

  lemma {:induction false} InsertKeepsTies(rank: Fact -> Rank, at: Rank, sorted: seq<Fact>, fact: Fact)
    ensures Ties(rank, at, Insert(rank, sorted, fact)) == Ties(rank, at, sorted + [fact])
  {
    if sorted != [] {
      var before, last := sorted[..|sorted| - 1], sorted[|sorted| - 1];
      assert sorted == before + [last];
      InsertKeepsTies(rank, at, before, fact);
      TiesSwap(rank, at, before, last, fact);
    }
  }

  lemma TiesSwap(rank: Fact -> Rank, at: Rank, before: seq<Fact>, last: Fact, fact: Fact)
    requires Ties(rank, at, Insert(rank, before, fact)) == Ties(rank, at, before + [fact])
    ensures Ties(rank, at, Insert(rank, before + [last], fact)) == Ties(rank, at, before + [last] + [fact])
  {
    hide Ties, Insert;
    InsertMore(rank, before, last, fact);
    if Ahead(rank(fact), rank(last)) {
      TiesMore(rank, at, Insert(rank, before, fact), last);
      TiesMore(rank, at, before, fact);
      TiesMore(rank, at, before, last);
      TiesMore(rank, at, before + [last], fact);
      assert !(Tied(at, rank(last)) && Tied(at, rank(fact)));
    }
  }

  /** The ranking is a permutation in rank order that leaves equals in the order they came. */
  lemma {:induction false} RankingIsStable(rank: Fact -> Rank, facts: seq<Fact>, at: Rank)
    ensures SortedBy(rank, StableSort(rank, facts))
    ensures multiset(StableSort(rank, facts)) == multiset(facts)
    ensures Ties(rank, at, StableSort(rank, facts)) == Ties(rank, at, facts)
  {
    if facts != [] {
      var n := |facts| - 1;
      var before := StableSort(rank, facts[..n]);
      RankingIsStable(rank, facts[..n], at);
      InsertSorts(rank, before, facts[n]);
      InsertPermutes(rank, before, facts[n]);
      InsertKeepsTies(rank, at, before, facts[n]);
      TiesMore(rank, at, before, facts[n]);
      TiesMore(rank, at, facts[..n], facts[n]);
      assert facts == facts[..n] + [facts[n]];
    }
  }

  predicate IsAuthority(a: real) {
    1.0 <= a <= 1.5
  }

  /** A lead no authority overturns. Between positive scores that is a lead of more than half. */
  predicate ClearLead(s: real, t: real) {
    if t >= 0.0 then s > 1.5 * t else s >= 0.0 || 1.5 * s > t
  }

  /** A lead is clear exactly when it survives every pair of authorities. */
  lemma ClearLeadIff(s: real, t: real)
    ensures ClearLead(s, t) <==> forall x, y :: IsAuthority(x) && IsAuthority(y) ==> s * x > t * y
  {
    if ClearLead(s, t) {
      forall x, y | IsAuthority(x) && IsAuthority(y) ensures s * x > t * y {
        LeadScales(s, t, x, y);
      }
    }
    if forall x, y :: IsAuthority(x) && IsAuthority(y) ==> s * x > t * y {
      assert IsAuthority(1.0) && IsAuthority(1.5);
      assert s * 1.0 > t * 1.5 && s * 1.5 > t * 1.0;
    }
  }

  lemma LeadScales(s: real, t: real, x: real, y: real)
    requires ClearLead(s, t) && IsAuthority(x) && IsAuthority(y)
    ensures s * x > t * y
  {
    AtLeastScaled(s, x);
    AtMostScaled(t, y);
  }

  lemma NonNegativeProduct(a: real, b: real)
    requires a >= 0.0 && b >= 0.0
    ensures a * b >= 0.0
  {
  }

  /** The least a score can become. */
  lemma AtLeastScaled(s: real, x: real)
    requires IsAuthority(x)
    ensures s * x >= if s >= 0.0 then s else 1.5 * s
  {
    if s >= 0.0 { NonNegativeProduct(s, x - 1.0); } else { NonNegativeProduct(-s, 1.5 - x); }
  }

  /** The most a score can become. */
  lemma AtMostScaled(t: real, y: real)
    requires IsAuthority(y)
    ensures t * y <= if t >= 0.0 then 1.5 * t else t
  {
    if t >= 0.0 { NonNegativeProduct(t, 1.5 - y); } else { NonNegativeProduct(-t, y - 1.0); }
  }

  /** Authority adjusts, it does not decide: a fact with a clear relevance lead is ranked first whatever the authorities. */
  lemma AuthorityIsBounded(input: Input, facts: seq<Fact>, i: nat, j: nat)
    requires i < |RankFacts(input, facts)| && j < |RankFacts(input, facts)|
    requires ClearLead(RawScore(input, RankFacts(input, facts)[i]), RawScore(input, RankFacts(input, facts)[j]))
    ensures i < j
  {
    var a, b := RankFacts(input, facts)[i], RankFacts(input, facts)[j];
    LeadHolds(input, a, b);
    RankingIsStable(Ranking(input), facts, RankOf(input, a));
    assert Ahead(Ranking(input)(a), Ranking(input)(b));
  }

  lemma LeadHolds(input: Input, a: Fact, b: Fact)
    requires ClearLead(RawScore(input, a), RawScore(input, b))
    ensures Ahead(RankOf(input, a), RankOf(input, b)) && !Ahead(RankOf(input, b), RankOf(input, a))
  {
    LeadScales(RawScore(input, a), RawScore(input, b), AuthorityOf(input, a), AuthorityOf(input, b));
  }

  // ---------------------------------------------------------------- filling

  /** Which items a fill takes: each that still fits, in order; one that does not is passed over. */
  function Taken(costs: seq<nat>, room: int): (flags: seq<bool>)
    ensures |flags| == |costs|
  {
    if costs == [] then []
    else
      var n := |costs| - 1;
      Taken(costs[..n], room) + [costs[n] <= Left(costs[..n], room)]
  }

  /** The room a fill leaves. */
  function Left(costs: seq<nat>, room: int): int {
    if costs == [] then room
    else
      var n := |costs| - 1;
      var left := Left(costs[..n], room);
      if costs[n] <= left then left - costs[n] else left
  }

  function Select<T>(items: seq<T>, flags: seq<bool>, flag: bool): seq<T>
    requires |items| == |flags|
  {
    if items == [] then []
    else
      var n := |items| - 1;
      Select(items[..n], flags[..n], flag) + if flags[n] == flag then [items[n]] else []
  }

  function FactCosts(facts: seq<Fact>): (costs: seq<nat>)
    ensures |costs| == |facts|
  {
    seq(|facts|, i requires 0 <= i < |facts| => |facts[i].content|)
  }

  function EventCosts(events: seq<Event>): (costs: seq<nat>)
    ensures |costs| == |events|
  {
    seq(|events|, i requires 0 <= i < |events| => |events[i].content|)
  }

  function Sum(costs: seq<nat>): nat {
    if costs == [] then 0 else Sum(costs[..|costs| - 1]) + costs[|costs| - 1]
  }

  // ---------------------------------------------------------------- packing

  function KeptDigest(input: Input): Option<string> {
    if input.digest.Some? && input.digest.value != "" && |input.digest.value| <= input.maxChars then input.digest else None
  }

  function DigestChars(input: Input): nat {
    if KeptDigest(input).Some? then |KeptDigest(input).value| else 0
  }

  function DigestDrops(input: Input): seq<Drop> {
    if input.digest.Some? && input.digest.value != "" && KeptDigest(input).None?
    then [Drop(DigestDrop, None, |input.digest.value|, DigestTooLarge, None)] else []
  }

  /** Two fifths of the whole budget, rounded down. */
  function ShareCap(input: Input): int {
    input.maxChars * 2 / 5
  }

  function AfterDigest(input: Input): int {
    input.maxChars - DigestChars(input)
  }

  function Allowance(input: Input): int {
    if ShareCap(input) <= AfterDigest(input) then ShareCap(input) else AfterDigest(input)
  }

  function FactReason(input: Input): DropReason {
    if ShareCap(input) <= AfterDigest(input) then FactShareCap else BudgetExhausted
  }

  function Ranked(input: Input): seq<Fact> {
    RankFacts(input, input.facts)
  }

  function FactFlags(input: Input): (flags: seq<bool>)
    ensures |flags| == |Ranked(input)|
  {
    Taken(FactCosts(Ranked(input)), Allowance(input))
  }

  function FactChars(input: Input): int {
    Allowance(input) - Left(FactCosts(Ranked(input)), Allowance(input))
  }

  function EventRoom(input: Input): int {
    AfterDigest(input) - FactChars(input)
  }

  function EventFlags(input: Input): (flags: seq<bool>)
    ensures |flags| == |input.events|
  {
    Taken(EventCosts(input.events), EventRoom(input))
  }

  function EventChars(input: Input): int {
    EventRoom(input) - Left(EventCosts(input.events), EventRoom(input))
  }

  function FactDropOf(input: Input, fact: Fact): Drop {
    Drop(FactDrop, Some(fact.id), |fact.content|, FactReason(input), if input.scoreFact.Some? then Some(RawScore(input, fact)) else None)
  }

  function EventDropOf(event: Event): Drop {
    Drop(EventDrop, Some(event.id), |event.content|, BudgetExhausted, None)
  }

  function FactDrops(input: Input, facts: seq<Fact>): (drops: seq<Drop>)
    ensures |drops| == |facts|
  {
    seq(|facts|, i requires 0 <= i < |facts| => FactDropOf(input, facts[i]))
  }

  function EventDrops(events: seq<Event>): (drops: seq<Drop>)
    ensures |drops| == |events|
  {
    seq(|events|, i requires 0 <= i < |events| => EventDropOf(events[i]))
  }

  /** Every refusal, in the order it happens. */
  function AllDrops(input: Input): seq<Drop> {
    DigestDrops(input)
    + FactDrops(input, Select(Ranked(input), FactFlags(input), false))
    + EventDrops(Select(input.events, EventFlags(input), false))
  }

  function CountKind(drops: seq<Drop>, kind: DropKind): nat {
    Count(drops, (d: Drop) => d.kind == kind)
  }

  function Counts(drops: seq<Drop>): map<DropKind, nat> {
    map[DigestDrop := CountKind(drops, DigestDrop), FactDrop := CountKind(drops, FactDrop), EventDrop := CountKind(drops, EventDrop)]
  }

  function FirstN<T>(s: seq<T>, n: nat): seq<T> {
    if |s| <= n then s else s[..n]
  }

  function Pack(input: Input): Packed {
    var drops := AllDrops(input);
    var itemised := FirstN(drops, MAX_DROP_DETAIL_ITEMS);
    Packed(
      KeptDigest(input),
      Select(Ranked(input), FactFlags(input), true),
      Select(input.events, EventFlags(input), true),
      Report(DigestChars(input) + FactChars(input) + EventChars(input), DigestChars(input), FactChars(input), EventChars(input),
             ShareCap(input), Counts(drops), itemised, |drops| - |itemised|))
  }

  // ---------------------------------------------------------------- a fill, as a whole

  /** The room left is the room given less what was taken, and never goes below nothing. */
  lemma {:induction false} FillSpends(costs: seq<nat>, room: int)
    ensures Left(costs, room) == room - Sum(Select(costs, Taken(costs, room), true))
    ensures room >= 0 ==> Left(costs, room) >= 0
    ensures Left(costs, room) <= room
  {
    if costs != [] {
      var n := |costs| - 1;
      FillSpends(costs[..n], room);
      var flags := Taken(costs, room);
      assert flags[..n] == Taken(costs[..n], room);
      var before := Select(costs[..n], flags[..n], true);
      if flags[n] {
        assert Select(costs, flags, true) == before + [costs[n]];
        assert (before + [costs[n]])[..|before|] == before;
      } else {
        assert Select(costs, flags, true) == before + [] == before;
      }
    }
  }

  /** Greedy to the end: whatever was passed over still does not fit in what is left. */
  lemma {:induction false} FillIsGreedy(costs: seq<nat>, room: int, i: nat)
    requires i < |costs|
    ensures Taken(costs, room)[i] <==> costs[i] <= Left(costs[..i], room)
    ensures !Taken(costs, room)[i] ==> costs[i] > Left(costs, room)
  {
    var n := |costs| - 1;
    if i < n {
      FillIsGreedy(costs[..n], room, i);
      assert costs[..n][..i] == costs[..i];
    }
  }

  lemma SelectMore<T>(items: seq<T>, flags: seq<bool>, flag: bool, x: T, taken: bool)
    requires |items| == |flags|
    ensures Select(items + [x], flags + [taken], flag) == if taken == flag then Select(items, flags, flag) + [x] else Select(items, flags, flag)
  {
    assert (items + [x])[..|items|] == items && (flags + [taken])[..|flags|] == flags;
  }

  ghost predicate Splits<T>(items: seq<T>, yes: seq<T>, no: seq<T>) {
    multiset(yes) + multiset(no) == multiset(items) && |yes| + |no| == |items|
  }

  lemma SplitMore<T>(items: seq<T>, yes: seq<T>, no: seq<T>, x: T)
    requires Splits(items, yes, no)
    ensures Splits(items + [x], yes + [x], no) && Splits(items + [x], yes, no + [x])
  {
  }

  /** The two halves of a selection make up the whole, each in its order. */
  lemma {:induction false} SelectSplits<T>(items: seq<T>, flags: seq<bool>)
    requires |items| == |flags|
    ensures Splits(items, Select(items, flags, true), Select(items, flags, false))
  {
    hide Select, Splits;
    if items == [] {
      SelectNone(items, flags);
    } else {
      var n := |items| - 1;
      SelectSplits(items[..n], flags[..n]);
      SelectSplitsMore(items[..n], flags[..n], items[n], flags[n]);
      assert items == items[..n] + [items[n]] && flags == flags[..n] + [flags[n]];
    }
  }

  lemma SelectNone<T>(items: seq<T>, flags: seq<bool>)
    requires |items| == |flags| == 0
    ensures Splits(items, Select(items, flags, true), Select(items, flags, false))
  {
  }

  lemma SelectSplitsMore<T>(items: seq<T>, flags: seq<bool>, x: T, taken: bool)
    requires |items| == |flags| && Splits(items, Select(items, flags, true), Select(items, flags, false))
    ensures Splits(items + [x], Select(items + [x], flags + [taken], true), Select(items + [x], flags + [taken], false))
  {
    hide Select, Splits;
    SelectMore(items, flags, true, x, taken);
    SelectMore(items, flags, false, x, taken);
    SplitMore(items, Select(items, flags, true), Select(items, flags, false), x);
  }

  lemma SelectStep<T>(items: seq<T>, flags: seq<bool>, flag: bool, k: nat)
    requires |items| == |flags| && k < |items|
    ensures Select(items[..k + 1], flags[..k + 1], flag) == Select(items[..k], flags[..k], flag) + if flags[k] == flag then [items[k]] else []
  {
    PrefixStep(items, k);
    PrefixStep(flags, k);
    SelectMore(items[..k], flags[..k], flag, items[k], flags[k]);
  }

  /** One item further into a fill. */
  lemma FillStep(costs: seq<nat>, room: int, k: nat)
    requires k < |costs|
    ensures Taken(costs, room)[k] <==> costs[k] <= Left(costs[..k], room)
    ensures Left(costs[..k + 1], room) == Left(costs[..k], room) - if Taken(costs, room)[k] then costs[k] else 0
  {
    FillIsGreedy(costs, room, k);
    PrefixStep(costs, k);
  }

  lemma {:induction false} Selected<T>(items: seq<T>, flags: seq<bool>, flag: bool, x: T) returns (i: nat)
    requires |items| == |flags| && x in Select(items, flags, flag)
    ensures i < |items| && items[i] == x && flags[i] == flag
  {
    var n := |items| - 1;
    if flags[n] == flag && items[n] == x {
      i := n;
    } else {
      i := Selected(items[..n], flags[..n], flag, x);
    }
  }

  lemma {:induction false} SelectFactCosts(facts: seq<Fact>, flags: seq<bool>, flag: bool)
    requires |facts| == |flags|
    ensures Select(FactCosts(facts), flags, flag) == FactCosts(Select(facts, flags, flag))
  {
    if facts != [] {
      var n := |facts| - 1;
      SelectFactCosts(facts[..n], flags[..n], flag);
      assert FactCosts(facts)[..n] == FactCosts(facts[..n]);
    }
  }

  lemma {:induction false} SelectEventCosts(events: seq<Event>, flags: seq<bool>, flag: bool)
    requires |events| == |flags|
    ensures Select(EventCosts(events), flags, flag) == EventCosts(Select(events, flags, flag))
  {
    if events != [] {
      var n := |events| - 1;
      SelectEventCosts(events[..n], flags[..n], flag);
      assert EventCosts(events)[..n] == EventCosts(events[..n]);
    }
  }

  // ---------------------------------------------------------------- what packing promises

  /** The characters reported are those of what is kept; they fit the budget, the facts their share. */
  lemma BudgetIsRespected(input: Input)
    ensures var r := Pack(input);
            && r.budget.factChars == Sum(FactCosts(r.facts))
            && r.budget.eventChars == Sum(EventCosts(r.events))
            && r.budget.digestChars == (if r.digest.Some? then |r.digest.value| else 0)
            && r.budget.usedChars == r.budget.digestChars + r.budget.factChars + r.budget.eventChars
            && (input.maxChars >= 0 ==> r.budget.usedChars <= input.maxChars && 5 * r.budget.factChars <= 2 * input.maxChars)
            && (input.maxChars < 0 ==> r.budget.usedChars == 0)
  {
    FillSpends(FactCosts(Ranked(input)), Allowance(input));
    FillSpends(EventCosts(input.events), EventRoom(input));
    SelectFactCosts(Ranked(input), FactFlags(input), true);
    SelectEventCosts(input.events, EventFlags(input), true);
    if input.maxChars < 0 {
      NothingFits(FactCosts(Ranked(input)), Allowance(input));
      NothingFits(EventCosts(input.events), EventRoom(input));
    }
  }

  lemma {:induction false} NothingFits(costs: seq<nat>, room: int)
    requires room < 0
    ensures Left(costs, room) == room
  {
    if costs != [] { NothingFits(costs[..|costs| - 1], room); }
  }

  /** What is kept and what is refused make up what came in; the ranking only reorders facts. */
  lemma NothingIsLost(input: Input)
    ensures multiset(Pack(input).facts) + multiset(Select(Ranked(input), FactFlags(input), false)) == multiset(input.facts)
    ensures multiset(Pack(input).events) + multiset(Select(input.events, EventFlags(input), false)) == multiset(input.events)
  {
    RankingIsStable(Ranking(input), input.facts, Rank(0.0, 0.0, 0));
    SelectSplits(Ranked(input), FactFlags(input));
    SelectSplits(input.events, EventFlags(input));
  }

  /** Every refusal is counted; each is itemised or counted as omitted, and at most 100 are itemised. */
  lemma EveryDropIsCounted(input: Input)
    ensures var r := Pack(input);
            && |r.facts| + r.budget.droppedCounts[FactDrop] == |input.facts|
            && |r.events| + r.budget.droppedCounts[EventDrop] == |input.events|
            && (r.budget.droppedCounts[DigestDrop] == 1 <==> input.digest.Some? && input.digest.value != "" && r.digest.None?)
            && |r.budget.dropped| + r.budget.itemsOmitted
               == r.budget.droppedCounts[DigestDrop] + r.budget.droppedCounts[FactDrop] + r.budget.droppedCounts[EventDrop]
            && |r.budget.dropped| <= MAX_DROP_DETAIL_ITEMS
            && (r.budget.itemsOmitted > 0 ==> |r.budget.dropped| == MAX_DROP_DETAIL_ITEMS)
  {
    hide Taken, Select, StableSort, CountKind, FactChars, EventChars, ShareCap;
    RankingIsStable(Ranking(input), input.facts, Rank(0.0, 0.0, 0));
    assert |multiset(Ranked(input))| == |multiset(input.facts)|;
    SelectSplits(Ranked(input), FactFlags(input));
    SelectSplits(input.events, EventFlags(input));
    DropsCounted(input);
  }

  lemma DropsCounted(input: Input)
    ensures CountKind(AllDrops(input), DigestDrop) == |DigestDrops(input)|
    ensures CountKind(AllDrops(input), FactDrop) == |Select(Ranked(input), FactFlags(input), false)|
    ensures CountKind(AllDrops(input), EventDrop) == |Select(input.events, EventFlags(input), false)|
  {
    var facts := FactDrops(input, Select(Ranked(input), FactFlags(input), false));
    var events := EventDrops(Select(input.events, EventFlags(input), false));
    forall kind ensures CountKind(AllDrops(input), kind) == CountKind(DigestDrops(input), kind) + CountKind(facts, kind) + CountKind(events, kind) {
      CountsAdd(DigestDrops(input), facts, events, kind);
    }
    OneKind(DigestDrops(input), DigestDrop, FactDrop);
    OneKind(DigestDrops(input), DigestDrop, EventDrop);
    OneKind(facts, FactDrop, DigestDrop);
    OneKind(facts, FactDrop, EventDrop);
    OneKind(events, EventDrop, DigestDrop);
    OneKind(events, EventDrop, FactDrop);
  }

  lemma CountsAdd(a: seq<Drop>, b: seq<Drop>, c: seq<Drop>, kind: DropKind)
    ensures CountKind(a + b + c, kind) == CountKind(a, kind) + CountKind(b, kind) + CountKind(c, kind)
  {
    CountConcat(a + b, c, kind);
    CountConcat(a, b, kind);
  }

  lemma {:induction false} CountConcat(a: seq<Drop>, b: seq<Drop>, kind: DropKind)
    ensures CountKind(a + b, kind) == CountKind(a, kind) + CountKind(b, kind)
  {
    if b == [] {
      assert a + b == a;
    } else {
      assert (a + b)[..|a + b| - 1] == a + b[..|b| - 1];
      CountConcat(a, b[..|b| - 1], kind);
    }
  }

  lemma {:induction false} OneKind(drops: seq<Drop>, kind: DropKind, other: DropKind)
    requires other != kind && forall i :: 0 <= i < |drops| ==> drops[i].kind == kind
    ensures CountKind(drops, kind) == |drops| && CountKind(drops, other) == 0
  {
    if drops != [] { OneKind(drops[..|drops| - 1], kind, other); }
  }

  /** No refused fact fits what the facts' allowance has left, no refused event what the budget has left. */
  lemma PackingIsGreedy(input: Input)
    ensures var r := Pack(input);
            && (forall f :: f in Select(Ranked(input), FactFlags(input), false) ==> |f.content| > Allowance(input) - r.budget.factChars)
            && (forall e :: e in Select(input.events, EventFlags(input), false) ==> |e.content| > input.maxChars - r.budget.usedChars)
  {
    forall f | f in Select(Ranked(input), FactFlags(input), false)
      ensures |f.content| > Allowance(input) - FactChars(input)
    {
      var i := Selected(Ranked(input), FactFlags(input), false, f);
      FillIsGreedy(FactCosts(Ranked(input)), Allowance(input), i);
    }
    forall e | e in Select(input.events, EventFlags(input), false)
      ensures |e.content| > EventRoom(input) - EventChars(input)
    {
      var i := Selected(input.events, EventFlags(input), false, e);
      FillIsGreedy(EventCosts(input.events), EventRoom(input), i);
    }
  }

  // ---------------------------------------------------------------- the loops

  /** The running record of refusals: counts are complete, the detail list is bounded. */
  class DropRecord {
    var droppedCounts: map<DropKind, nat>
    var dropped: seq<Drop>
    var itemsOmitted: nat
    ghost var all: seq<Drop>

    ghost predicate Valid()
      reads this
    {
      && droppedCounts == Counts(all)
      && dropped == FirstN(all, MAX_DROP_DETAIL_ITEMS)
      && itemsOmitted == |all| - |dropped|
    }

    constructor ()
      ensures Valid() && all == []
    {
      droppedCounts := map[DigestDrop := 0, FactDrop := 0, EventDrop := 0];
      dropped, itemsOmitted, all := [], 0, [];
    }

    method Record(drop: Drop)
      requires Valid()
      modifies this
      ensures Valid() && all == old(all) + [drop]
    {
      assert (all + [drop])[..|all|] == all;
      droppedCounts := droppedCounts[drop.kind := droppedCounts[drop.kind] + 1];
      if |dropped| < MAX_DROP_DETAIL_ITEMS {
        dropped := dropped + [drop];
      } else {
        itemsOmitted := itemsOmitted + 1;
      }
      all := all + [drop];
    }
  }

  /** The loop over the ranked facts. */
  method FillFacts(input: Input, ranked: seq<Fact>, room: int, record: DropRecord) returns (kept: seq<Fact>, chars: int)
    requires record.Valid()
    modifies record
    ensures var flags := Taken(FactCosts(ranked), room);
            && record.Valid() && record.all == old(record.all) + FactDrops(input, Select(ranked, flags, false))
            && kept == Select(ranked, flags, true)
            && chars == room - Left(FactCosts(ranked), room)
  {
    hide Taken;
    kept, chars := [], 0;
    var allowance := room;
    ghost var costs := FactCosts(ranked);
    ghost var flags := Taken(costs, room);
    ghost var refused: seq<Fact> := [];
    for k := 0 to |ranked|
      invariant record.Valid()
      invariant allowance == Left(costs[..k], room) == room - chars
      invariant kept == Select(ranked[..k], flags[..k], true) && refused == Select(ranked[..k], flags[..k], false)
      invariant record.all == old(record.all) + FactDrops(input, refused)
    {
      FillStep(costs, room, k);
      SelectStep(ranked, flags, true, k);
      SelectStep(ranked, flags, false, k);
      var fact := ranked[k];
      var cost := |fact.content|;
      if cost <= allowance {
        kept := kept + [fact];
        allowance := allowance - cost;
        chars := chars + cost;
      } else {
        record.Record(FactDropOf(input, fact));
        assert FactDrops(input, refused + [fact]) == FactDrops(input, refused) + [FactDropOf(input, fact)];
        refused := refused + [fact];
      }
    }
    assert ranked[..|ranked|] == ranked && costs[..|costs|] == costs && flags[..|flags|] == flags;
  }

  /** The loop over the events. */
  method FillEvents(events: seq<Event>, room: int, record: DropRecord) returns (kept: seq<Event>, chars: int)
    requires record.Valid()
    modifies record
    ensures var flags := Taken(EventCosts(events), room);
            && record.Valid() && record.all == old(record.all) + EventDrops(Select(events, flags, false))
            && kept == Select(events, flags, true)
            && chars == room - Left(EventCosts(events), room)
  {
    hide Taken;
    kept, chars := [], 0;
    var remaining := room;
    ghost var costs := EventCosts(events);
    ghost var flags := Taken(costs, room);
    ghost var refused: seq<Event> := [];
    for k := 0 to |events|
      invariant record.Valid()
      invariant remaining == Left(costs[..k], room) == room - chars
      invariant kept == Select(events[..k], flags[..k], true) && refused == Select(events[..k], flags[..k], false)
      invariant record.all == old(record.all) + EventDrops(refused)
    {
      FillStep(costs, room, k);
      SelectStep(events, flags, true, k);
      SelectStep(events, flags, false, k);
      var event := events[k];
      var cost := |event.content|;
      if cost <= remaining {
        kept := kept + [event];
        remaining := remaining - cost;
        chars := chars + cost;
      } else {
        record.Record(EventDropOf(event));
        assert EventDrops(refused + [event]) == EventDrops(refused) + [EventDropOf(event)];
        refused := refused + [event];
      }
    }
    assert events[..|events|] == events && costs[..|costs|] == costs && flags[..|flags|] == flags;
  }

  /** The digest is kept whole or not at all. */
  method FitDigest(input: Input, record: DropRecord) returns (kept: Option<string>, chars: nat)
    requires record.Valid()
    modifies record
    ensures record.Valid() && record.all == old(record.all) + DigestDrops(input)
    ensures kept == KeptDigest(input) && chars == DigestChars(input)
  {
    kept, chars := None, 0;
    if input.digest.Some? && input.digest.value != "" {
      if |input.digest.value| <= input.maxChars {
        kept, chars := input.digest, |input.digest.value|;
      } else {
        record.Record(Drop(DigestDrop, None, |input.digest.value|, DigestTooLarge, None));
      }
    }
  }

  /** `packWithinBudget`. */
  method PackWithinBudget(input: Input) returns (r: Packed)
    ensures r == Pack(input)
  {
    hide Taken, Left, Select, StableSort, KeptDigest, DigestChars, DigestDrops, ShareCap, Counts;
    var record := new DropRecord();
    var keptDigest, digestChars := FitDigest(input, record);
    var ranked := RankFacts(input, input.facts);
    var facts, factChars := FillFacts(input, ranked, Allowance(input), record);
    var remaining := input.maxChars - digestChars - factChars;
    var events, eventChars := FillEvents(input.events, remaining, record);
    assert record.all == AllDrops(input);
    r := Packed(keptDigest, facts, events,
                Report(digestChars + factChars + eventChars, digestChars, factChars, eventChars, ShareCap(input),
                       record.droppedCounts, record.dropped, record.itemsOmitted));
  }
}
