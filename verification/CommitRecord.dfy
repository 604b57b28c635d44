/**
 * What a digest's commit records on each entry (packages/core/src/handoff.ts:157-196): the retirement
 * or revision noted while it ran, as it was noted; then what is forgotten; then what the cap takes.
 */
module CommitRecord {
  import opened Options
  import opened Seqs
  import opened FactRegistry
  import opened MemoryFacts
  import opened RegistryLaws
  import opened Handoff
  import opened HandoffLaws
  import opened CapLines
  import opened CapOrder
  import opened CommitLines

  // ---------------------------------------------------------------- the join

  /** Entry `theirs` of the latest snapshot ended, while the digest ran, a note it holds active as `mine`. */
  predicate EndedMeanwhile(mine: Entry, theirs: Entry) {
    && theirs.id == mine.id && theirs.facet == Some(NOTES)
    && (theirs.supersededBy.Some? || theirs.retired.Some?)
    && mine.supersededBy.None? && mine.retired.None?
  }

  /** An own note that ended meanwhile takes its link and its retirement, date and reason, from the latest snapshot. */
  lemma OvertakenRecords(env: Env, p: Ledger, latest: seq<Entry>, keys: set<Key>, j: nat)
    requires UniqueIds(p.registry) && UniqueIds(latest) && j < |p.registry|
    ensures var mine, after := p.registry[j], CarryAll(env, p, latest, keys).registry[j];
            && (forall x :: 0 <= x < |latest| && EndedMeanwhile(mine, latest[x]) ==>
                  after == mine.(supersededBy := latest[x].supersededBy, retired := latest[x].retired))
            && ((forall x :: 0 <= x < |latest| ==> !EndedMeanwhile(mine, latest[x])) ==> after == mine)
  {
    hide CarryAll, Settle, Adopted;
    CarriedRegistry(env, p, latest, keys);
    JoinRecords(p.registry[j], latest);
  }

  lemma JoinRecords(mine: Entry, latest: seq<Entry>)
    requires UniqueIds(latest)
    ensures forall x :: 0 <= x < |latest| && EndedMeanwhile(mine, latest[x]) ==>
              Settle(mine, latest) == mine.(supersededBy := latest[x].supersededBy, retired := latest[x].retired)
    ensures (forall x :: 0 <= x < |latest| ==> !EndedMeanwhile(mine, latest[x])) ==> Settle(mine, latest) == mine
  {
    hide Settle;
    if x :| 0 <= x < |latest| && latest[x].id == mine.id {
      SettleIs(mine, latest, x);
      forall y | 0 <= y < |latest| && y != x ensures latest[y].id != mine.id {
        assert latest[if x < y then x else y].id != latest[if x < y then y else x].id;
      }
    } else {
      SettleAlone(mine, latest);
    }
  }

  /** After its own entries come, in their order and as they are, the notes it never saw that are not forgotten. */
  lemma ArrivalsAreAppended(env: Env, p: Ledger, latest: seq<Entry>, keys: set<Key>)
    requires UniqueIds(p.registry)
    ensures var r := CarryAll(env, p, latest, keys).registry;
            && |p.registry| <= |r|
            && r[|p.registry|..] == Filter(latest, (e: Entry) =>
                 && e.facet == Some(NOTES) && (forall j :: 0 <= j < |p.registry| ==> p.registry[j].id != e.id)
                 && !GroupForgets(env.lex, env.pack.group(NOTES), keys, e.content))
  {
    hide CarryAll, Settle, Filter;
    CarriedRegistry(env, p, latest, keys);
    FilterSame(latest, (e: Entry) => Adoptable(env, Ids(p.registry), keys, e), (e: Entry) =>
      && e.facet == Some(NOTES) && (forall j :: 0 <= j < |p.registry| ==> p.registry[j].id != e.id)
      && !GroupForgets(env.lex, env.pack.group(NOTES), keys, e.content));
  }

  // ---------------------------------------------------------------- the cap

  /** The cap takes active notes, and active entries of no facet, alone. */
  predicate MayGo(e: Entry) {
    Active(e) && (e.facet.None? || e.facet == Some(NOTES))
  }

  lemma {:induction false} CapSpares(env: Env, s: Ledger, now: nat, k: nat)
    requires k < |s.registry| && !MayGo(s.registry[k])
    ensures var r' := HoldToCap(env, s, now).registry; |r'| == |s.registry| && r'[k] == s.registry[k]
    decreases |Lines(s, NOTES)|
  {
    if |Lines(s, NOTES)| > env.pack.cap(NOTES) {
      CapSpares(env, EvictNote(env.lex, s, Surplus(env.lex, s), now), now, k);
    }
  }

  /** The cap retires an entry when the line it goes with leaves, and no other. */
  lemma CapRecords(env: Env, s: Ledger, now: nat, k: nat)
    requires k < |s.registry|
    ensures var r' := HoldToCap(env, s, now).registry;
            && |r'| == |s.registry|
            && r'[k] == if MayGo(s.registry[k]) && TurnComes(env.lex, env.pack.cap(NOTES), s.registry, Lines(s, NOTES), k)
                        then s.registry[k].(retired := Some(Retirement(now, CapEvicted))) else s.registry[k]
  {
    hide HoldToCap, TurnComes, Lines;
    if MayGo(s.registry[k]) {
      CapTakesIff(env, s, now, k);
      HoldToCapEntries(env, s, now);
      assert KeptOrEvicted(s.registry, HoldToCap(env, s, now).registry, k, now);
    } else {
      CapSpares(env, s, now, k);
    }
  }

  // ---------------------------------------------------------------- the commit

  /** What the commit makes of a joined entry, `evicted` if the line it goes with is one the cap takes. */
  predicate Recorded(env: Env, keys: set<Key>, now: nat, e: Entry, e': Entry, evicted: bool) {
    var active := e.supersededBy.None? && e.retired.None?;
    if active && e.facet == Some(NOTES) && GroupForgets(env.lex, env.pack.group(NOTES), keys, e.content) then
      e' == e.(retired := Some(Retirement(now, Forgotten)))
    else if active && (e.facet.None? || e.facet == Some(NOTES)) && evicted then
      e' == e.(retired := Some(Retirement(now, CapEvicted)))
    else e' == e
  }

  /**
   * The commit, entry by entry: an own entry as the digest holds it, or as it ended meanwhile, or an
   * adopted one; then retired as forgotten if it is an active note whose key is among the forgotten
   * ones, and as evicted if the line it goes with is one the cap takes.
   */
  lemma CommitRecords(env: Env, p: Ledger, latest: Ledger, keys: set<Key>, now: nat, k: nat)
    requires UniqueIds(p.registry) && UniqueIds(latest.registry)
    requires SameTexts(latest.registry, p.registry) && Ordered(latest.registry, p.registry)
    ensures var carried := CarryAll(env, p, latest.registry, keys).registry;
            var r' := CarryOver(env, p, latest, keys, now).registry;
            && |r'| == |carried|
            && (k < |carried| ==>
                  Recorded(env, keys, now, carried[k], r'[k],
                           TurnComes(env.lex, env.pack.cap(NOTES), StampAll(env, keys, now, carried),
                                     KeptNotes(env, keys, JoinedLines(env, p, latest.registry, keys)), k)))
  {
    hide CarryAll, HoldToCap, RetireForgotten, JoinedLines, TurnComes, KeptNotes, Ordered, SameTexts;
    var r := latest.registry;
    var c := CarryAll(env, p, r, keys);
    var cleaned := RetireForgotten(env, c, keys, now).0;
    assert r[..|r|] == r;
    CarriedLines(env, p, r, keys, |r|);
    RetiringIs(env, c, keys, now);
    CapKeepsLength(env, cleaned, now);
    if k < |c.registry| { CapRecords(env, cleaned, now, k); }
  }

  /** A note forgotten while the digest ran is committed as forgotten, at the time it was. */
  lemma ForgettingIsRecorded(env: Env, p: Ledger, latest: Ledger, keys: set<Key>, now: nat, j: nat, x: nat)
    requires UniqueIds(p.registry) && UniqueIds(latest.registry)
    requires j < |p.registry| && x < |latest.registry| && EndedMeanwhile(p.registry[j], latest.registry[x])
    ensures var r' := CarryOver(env, p, latest, keys, now).registry;
            && j < |r'|
            && r'[j] == p.registry[j].(supersededBy := latest.registry[x].supersededBy, retired := latest.registry[x].retired)
  {
    hide CarryAll, HoldToCap;
    var c := CarryAll(env, p, latest.registry, keys);
    var cleaned := RetireForgotten(env, c, keys, now).0;
    OvertakenRecords(env, p, latest.registry, keys, j);
    RetiringIs(env, c, keys, now);
    CapRecords(env, cleaned, now, j);
  }
}
