/**
 * Whether the links from a fact to its replacement stay closed over whole runs, so that the chain a
 * provenance query follows (packages/core/src/provenance.ts:14-46) ends with a current version. Every
 * step keeps them closed but a commit, which may carry a link over without its target
 * (packages/core/src/handoff.ts:165-183).
 */
module LinkRuns {
  import opened Options
  import opened Seqs
  import opened FactRegistry
  import opened RegistryLaws
  import opened RegistryHistory
  import opened DigestFacts
  import opened FacetConsolidation
  import opened DigestWork
  import opened Handoff
  import opened HandoffLaws
  import opened ScopeStore
  import opened CommitLines
  import opened Provenance

  // ---------------------------------------------------------------- new links land on new entries

  predicate Lands(r: seq<Entry>, i: nat, n: nat)
    requires i < |r|
  {
    r[i].supersededBy.Some? && exists j :: n <= j < |r| && r[j].id == r[i].supersededBy.value
  }

  /** Every link is an old one or leads to a new entry, and new entries have none. */
  predicate LinksLand(r: seq<Entry>, r': seq<Entry>) {
    && |r| <= |r'|
    && (forall i :: 0 <= i < |r| ==> r'[i].id == r[i].id && (r'[i].supersededBy == r[i].supersededBy || Lands(r', i, |r|)))
    && (forall i :: |r| <= i < |r'| ==> r'[i].supersededBy.None?)
  }

  lemma ClosedAfter(r: seq<Entry>, r': seq<Entry>)
    requires Closed(r) && LinksLand(r, r') && UniqueIds(r')
    ensures Closed(r')
  {
    forall i | 0 <= i < |r'| && r'[i].supersededBy.Some? ensures ForwardLink(r', i) {
      if Lands(r', i, |r|) {
        var j :| |r| <= j < |r'| && r'[j].id == r'[i].supersededBy.value;
        assert r'[i].supersededBy == Some(r'[j].id);
      } else {
        assert ForwardLink(r, i);
        var j :| i < j < |r| && r[i].supersededBy == Some(r[j].id);
        assert r'[i].supersededBy == Some(r'[j].id);
      }
    }
  }

  lemma SameLinksLand(r: seq<Entry>, r': seq<Entry>)
    requires SameLinks(r, r')
    ensures LinksLand(r, r')
  {
  }

  lemma LandAfterSame(a: seq<Entry>, b: seq<Entry>, c: seq<Entry>)
    requires SameLinks(a, b) && LinksLand(b, c)
    ensures LinksLand(a, c)
  {
  }

  lemma RegisterLands(s: Ledger, value: string, stamp: Stamp, prior: nat)
    ensures LinksLand(s.registry, Register(s, value, stamp, prior).registry)
  {
    var r' := Register(s, value, stamp, prior).registry;
    assert r'[|s.registry|].id == stamp.id;
  }

  lemma ForgettingSameLinks(env: Env, s: Ledger, keys: set<Key>, now: nat)
    ensures SameLinks(s.registry, RetireForgotten(env, s, keys, now).0.registry)
  {
  }

  lemma RoomSameLinks(env: Env, s: Ledger, now: nat)
    ensures SameLinks(s.registry, MakeRoom(env, s, now).registry)
  {
  }

  lemma AccumulateLands(env: Env, s: Ledger, value: string, stamp: Stamp)
    ensures LinksLand(s.registry, Accumulate(env, s, value, stamp).state.registry)
  {
    hide MakeRoom, Register, ForgottenPrior, ActiveNoteIndex, LinksLand;
    var prior := ForgottenPrior(env.lex, s.registry, value);
    var held := Held(env, s, value, stamp.now);
    RoomSameLinks(env, s, stamp.now);
    SameLinksLand(s.registry, held.registry);
    RegisterLands(held, value, stamp, prior);
    RegisterLands(held, value, stamp, |held.registry|);
    LandAfterSame(s.registry, held.registry, Register(held, value, stamp, prior).registry);
    LandAfterSame(s.registry, held.registry, Register(held, value, stamp, |held.registry|).registry);
  }

  lemma NoteLands(env: Env, s: Ledger, text: string, stamp: Stamp, keys: set<Key>)
    ensures LinksLand(s.registry, AddNote(env, s, text, stamp, keys).state.registry)
  {
    hide RetireForgotten, Register, Accumulate, RevisedLine, HasLine, NoteForgotten, ActiveNoteIndex, LinksLand;
    SameLinksLand(s.registry, s.registry);
    var value := env.lex.trim(text);
    var healed := RetireForgotten(env, s, keys, stamp.now).0;
    ForgettingSameLinks(env, s, keys, stamp.now);
    SameLinksLand(s.registry, healed.registry);
    AccumulateLands(env, healed, value, stamp);
    LandAfterSame(s.registry, healed.registry, Accumulate(env, healed, value, stamp).state.registry);
    var lines := Lines(healed, NOTES);
    var m := RevisedLine(env.lex, lines, value);
    if m < |lines| {
      var prior := ActiveNoteIndex(env.lex, healed.registry, lines[m]);
      var revised := SetLines(healed, NOTES, lines[m := value]);
      RegisterLands(revised, value, stamp, prior);
      LandAfterSame(s.registry, healed.registry, Register(revised, value, stamp, prior).registry);
    }
  }

  // ---------------------------------------------------------------- the digest's steps

  lemma PromoteLands(lex: Lexicon, s: Ledger, content: string, kind: Kind, confidence: real, ev: Evidence, id: Id, facet: Option<string>, now: nat, entities: seq<string>)
    ensures LinksLand(s.registry, Promote(lex, s, content, kind, confidence, ev, id, facet, now, entities).registry)
  {
  }

  lemma SupersedeLands(lex: Lexicon, s: Ledger, content: string, newContent: string, ev: Evidence, id: Id, facet: string, confidence: real, entities: seq<string>, now: nat)
    ensures LinksLand(s.registry, Supersede(lex, s, content, newContent, ev, id, facet, confidence, entities, now).registry)
  {
    var r' := Supersede(lex, s, content, newContent, ev, id, facet, confidence, entities, now).registry;
    assert |r'| > |s.registry| ==> r'[|s.registry|].id == id;
  }

  lemma RestateLands(env: Env, s: Ledger, facet: string, i: nat, value: string, entities: seq<string>, ev: Option<Evidence>, id: Id, now: nat)
    requires i < |Lines(s, facet)|
    ensures LinksLand(s.registry, Restate(env, s, facet, i, value, entities, ev, id, now).state.registry)
  {
    hide Supersede, IsCallerNoteText, AuthorityIndex, LinksLand;
    SameLinksLand(s.registry, s.registry);
    if ev.Some? {
      SupersedeLands(env.lex, s, Lines(s, facet)[i], value, ev.value, id, facet, Authority(ev), entities, now);
    }
  }

  lemma PushLands(lex: Lexicon, s: Ledger, facet: string, value: string, entities: seq<string>, ev: Option<Evidence>, id: Id, now: nat)
    ensures LinksLand(s.registry, PushFact(lex, s, facet, value, entities, ev, id, now).registry)
  {
    hide Promote, LinksLand;
    SameLinksLand(s.registry, s.registry);
    if ev.Some? {
      PromoteLands(lex, SetLines(s, facet, Lines(s, facet) + [value]), value, Profile, Authority(ev), ev.value, id, Some(facet), now, entities);
    }
  }

  lemma AppendLands(env: Env, s: Ledger, facet: string, value: string, entities: seq<string>, ev: Option<Evidence>, id: Id, now: nat)
    ensures LinksLand(s.registry, Append(env, s, facet, value, entities, ev, id, now).state.registry)
  {
    hide PushFact, DigestLine, RetireFact, LinksLand, RemoveAt;
    SameLinksLand(s.registry, s.registry);
    var lines := Lines(s, facet);
    var i := DigestLine(env.lex, s.registry, facet, lines);
    PushLands(env.lex, s, facet, value, entities, ev, id, now);
    if i < |lines| {
      var room := SetLines(s, facet, RemoveAt(lines, i));
      var retired := RetireFact(env.lex, room, lines[i], CapEvicted, now, facet, false, true);
      PushLands(env.lex, room, facet, value, entities, ev, id, now);
      PushLands(env.lex, retired, facet, value, entities, ev, id, now);
      RetireSameLinks(env.lex, room, lines[i], CapEvicted, now, facet, false, true);
      LandAfterSame(s.registry, retired.registry, PushFact(env.lex, retired, facet, value, entities, ev, id, now).registry);
    }
  }

  lemma RetireSameLinks(lex: Lexicon, s: Ledger, content: string, reason: Reason, now: nat, facet: string, exact: bool, spareCallers: bool)
    ensures SameLinks(s.registry, RetireFact(lex, s, content, reason, now, facet, exact, spareCallers).registry)
  {
  }

  lemma ExtractedLands(env: Env, s: Ledger, fact: ProposedFact, from: Sources, id: Id, now: nat)
    ensures LinksLand(s.registry, ApplyFact(env, s, fact, from, id, now).state.registry)
  {
    hide Restate, Append, SameLine, FactSized, LinksLand;
    SameLinksLand(s.registry, s.registry);
    var facet := env.lex.trim(fact.facet);
    var value := env.lex.stripIds(env.lex.trim(fact.value));
    var ev := EvidenceFor(env.pack, facet, from);
    var ready := WithFacet(s, facet);
    var i := SameLine(env.lex, Lines(ready, facet), value);
    if i < |Lines(ready, facet)| {
      RestateLands(env, ready, facet, i, value, fact.entities, ev, id, now);
    }
    AppendLands(env, ready, facet, value, fact.entities, ev, id, now);
  }

  lemma PushRoutedLands(lex: Lexicon, s: Ledger, facet: string, protect: bool, value: string, eventId: Id, id: Id, now: nat)
    ensures LinksLand(s.registry, PushRouted(lex, s, facet, protect, value, eventId, id, now).registry)
  {
    hide Promote, LinksLand;
    SameLinksLand(s.registry, s.registry);
    PromoteLands(lex, SetLines(s, facet, Lines(s, facet) + [value]), value, Profile, 0.7, Evidence(eventId, EventSource), id, Some(facet), now, []);
  }

  lemma RoutedLands(env: Env, s: Ledger, evt: RoutedEvent, previous: set<Id>, id: Id, now: nat)
    ensures LinksLand(s.registry, RouteEvent(env, s, evt, previous, id, now).state.registry)
  {
    hide PushRouted, SameLine, UnprotectedLine, ProtectedLine, RemoveAt, FactSized, LinksLand;
    SameLinksLand(s.registry, s.registry);
    var route := env.pack.route(evt.classifiedType);
    if route.Some? {
      var facet, value, ready := route.value, env.lex.trim(evt.content), WithFacet(s, route.value);
      var lines, protect := Lines(ready, facet), env.pack.writeProtected(facet);
      PushRoutedLands(env.lex, ready, facet, protect, value, evt.id, id, now);
      var j := if protect then UnprotectedLine(env.lex, ready.registry, previous, facet, lines) else 0;
      if j < |lines| {
        PushRoutedLands(env.lex, SetLines(ready, facet, RemoveAt(lines, j)), facet, protect, value, evt.id, id, now);
      }
    }
  }

  lemma ConsolidatedLands(lex: Lexicon, s: Ledger, facet: string, items: seq<string>, result: seq<Merged>, now: nat)
    ensures LinksLand(s.registry, ApplyConsolidation(lex, s, facet, items, result, now).state.registry)
  {
    hide Acceptable, ApplyConsolidation, ResultIds;
    if Acceptable(items, result) {
      var r, r' := s.registry, ApplyConsolidation(lex, s, facet, items, result, now).state.registry;
      ConsolidatedParts(lex, s, facet, items, result, now);
      forall i | 0 <= i < |r| ensures r'[i].id == r[i].id && (r'[i].supersededBy == r[i].supersededBy || Lands(r', i, |r|)) {
        RelinkEvolves(lex, r, facet, items, result, now, r[i]);
        RelinkLands(lex, s, facet, items, result, now, i);
      }
      forall i | |r| <= i < |r'| ensures r'[i].supersededBy.None? {
        NewEntryIssued(lex, r, facet, items, result, now, i - |r|);
      }
    } else {
      ConsolidationRefused(lex, s, facet, items, result, now);
    }
  }

  lemma RelinkLands(lex: Lexicon, s: Ledger, facet: string, items: seq<string>, result: seq<Merged>, now: nat, i: nat)
    requires Acceptable(items, result) && i < |s.registry|
    ensures var r, r' := s.registry, ApplyConsolidation(lex, s, facet, items, result, now).state.registry;
            |r'| == |r| + |result| && (r'[i].supersededBy == r[i].supersededBy || Lands(r', i, |r|))
  {
    hide ApplyConsolidation, Acceptable, Relink, ResultIds;
    var r, r' := s.registry, ApplyConsolidation(lex, s, facet, items, result, now).state.registry;
    ConsolidatedParts(lex, s, facet, items, result, now);
    RelinkTarget(lex, r, facet, items, result, now, r[i]);
    if r'[i].supersededBy != r[i].supersededBy {
      assert r'[i].supersededBy.value in ResultIds(result);
      var k := ResultAt(result, r'[i].supersededBy.value);
      ConsolidatedId(lex, s, facet, items, result, now, k);
      assert r'[|r| + k].id == r'[i].supersededBy.value;
    }
  }

  lemma RelinkTarget(lex: Lexicon, r: seq<Entry>, facet: string, items: seq<string>, result: seq<Merged>, now: nat, e: Entry)
    ensures var to := Relink(lex, r, facet, items, result, now, e).supersededBy;
            to == e.supersededBy || (to.Some? && to.value in ResultIds(result))
  {
    hide Replacement, ResultIds;
    ReplacementIssued(lex, r, facet, items, result, e.id);
  }

  lemma ResultAt(result: seq<Merged>, id: Id) returns (k: nat)
    requires id in ResultIds(result)
    ensures k < |result| && result[k].id == id
  {
    k :| 0 <= k < |result| && result[k].id == id;
  }

  lemma WorkLands(env: Env, keys: set<Key>, s: Ledger, w: Work)
    ensures LinksLand(s.registry, Perform(env, keys, s, w).registry)
  {
    hide Promote, RouteEvent, ApplyFact, ApplyConsolidation, LinksLand;
    match w {
      case Promoted(content, kind, confidence, ev, id, now) => PromoteLands(env.lex, s, content, kind, confidence, ev, id, None, now, []);
      case Routed(evt, previous, id, now) => RoutedLands(env, s, evt, previous, id, now);
      case Extracted(fact, from, id, now) => ExtractedLands(env, s, fact, from, id, now);
      case Consolidated(facet, items, result, now) => ConsolidatedLands(env.lex, s, facet, items, result, now);
      case Pruned(_) => SameLinksLand(s.registry, Perform(env, keys, s, w).registry);
    }
  }

  // ---------------------------------------------------------------- the commit

  /** The commit takes the entry's status over, or the entry itself. */
  predicate CarriedOver(env: Env, p: seq<Entry>, keys: set<Key>, theirs: Entry) {
    Overtaken(p, theirs) || Adoptable(env, Ids(p), keys, theirs)
  }

  /** The entry with this id is adopted. */
  predicate Arrives(env: Env, p: seq<Entry>, latest: seq<Entry>, keys: set<Key>, id: Id) {
    exists y :: 0 <= y < |latest| && latest[y].id == id && Adoptable(env, Ids(p), keys, latest[y])
  }

  /** The target of every link carried over is adopted too: a note, not forgotten, that the digest does not hold. */
  predicate TargetsArrive(env: Env, p: seq<Entry>, latest: seq<Entry>, keys: set<Key>) {
    forall x :: 0 <= x < |latest| && CarriedOver(env, p, keys, latest[x]) && latest[x].supersededBy.Some?
      ==> Arrives(env, p, latest, keys, latest[x].supersededBy.value)
  }

  /** What replaced an entry the digest still holds active is new to the digest. */
  predicate ReplacedByNews(s: seq<Entry>, p: seq<Entry>) {
    forall i, j :: 0 <= i < |s| && 0 <= j < |p| && s[i].id == p[j].id && Active(p[j]) && s[i].supersededBy.Some?
      ==> s[i].supersededBy.value !in Ids(p)
  }

  /** Two elements a filter keeps stay in their order. */
  lemma {:induction false} FilterOrder<T(!new)>(s: seq<T>, p: T -> bool, x: nat, y: nat) returns (a: nat, b: nat)
    requires x < y < |s| && p(s[x]) && p(s[y])
    ensures a < b < |Filter(s, p)| && Filter(s, p)[a] == s[x] && Filter(s, p)[b] == s[y]
  {
    hide Filter;
    var n := |s| - 1;
    var before := Filter(s[..n], p);
    FilterStep(s, p);
    if y == n {
      a := FilterFinds(s[..n], p, x);
      b := |before|;
    } else {
      a, b := FilterOrder(s[..n], p, x, y);
    }
  }

  lemma FilterStep<T(!new)>(s: seq<T>, p: T -> bool)
    requires s != []
    ensures Filter(s, p) == Filter(s[..|s| - 1], p) + if p(s[|s| - 1]) then [s[|s| - 1]] else []
  {
  }

  lemma FilterFinds<T(!new)>(s: seq<T>, p: T -> bool, x: nat) returns (a: nat)
    requires x < |s| && p(s[x])
    ensures a < |Filter(s, p)| && Filter(s, p)[a] == s[x]
  {
    hide Filter;
    assert s[x] in Filter(s, p);
    a :| 0 <= a < |Filter(s, p)| && Filter(s, p)[a] == s[x];
  }

  /** The place of an overtaken entry in the joined registry, with the link it takes over. */
  lemma OvertakenAt(env: Env, p: seq<Entry>, latest: seq<Entry>, keys: set<Key>, x: nat) returns (k: nat)
    requires UniqueIds(latest) && x < |latest| && Overtaken(p, latest[x]) && latest[x].supersededBy.Some?
    ensures k < |p| && p[k].id == latest[x].id && Active(p[k])
    ensures JoinedEntries(env, p, latest, keys)[k].supersededBy == latest[x].supersededBy
  {
    hide Settle, Adopted;
    k :| 0 <= k < |p| && p[k].id == latest[x].id && Active(p[k]);
    SettleIs(p[k], latest, x);
  }

  lemma AdoptedPlace(env: Env, p: seq<Entry>, latest: seq<Entry>, keys: set<Key>, x: nat) returns (k: nat)
    requires x < |latest| && Adoptable(env, Ids(p), keys, latest[x])
    ensures |p| <= k < |JoinedEntries(env, p, latest, keys)| && JoinedEntries(env, p, latest, keys)[k] == latest[x]
  {
    hide Settle, Ids, Adoptable, Adopted;
    AdoptedHas(env, Ids(p), keys, latest, latest[x]);
    var more := Adopted(env, Ids(p), keys, latest);
    var a :| 0 <= a < |more| && more[a] == latest[x];
    k := |p| + a;
  }

  /** A carried link whose target does not arrive dangles, or leads back. */
  lemma StrayLink(env: Env, p: seq<Entry>, latest: seq<Entry>, keys: set<Key>, x: nat)
    requires UniqueIds(latest) && ReplacedByNews(latest, p)
    requires x < |latest| && CarriedOver(env, p, keys, latest[x]) && latest[x].supersededBy.Some?
    requires !Arrives(env, p, latest, keys, latest[x].supersededBy.value)
    ensures !Closed(JoinedEntries(env, p, latest, keys))
  {
    hide Settle, JoinedEntries, Adopted;
    var c := JoinedEntries(env, p, latest, keys);
    var k: nat;
    if Overtaken(p, latest[x]) { k := OvertakenAt(env, p, latest, keys, x); } else { k := AdoptedPlace(env, p, latest, keys, x); }
    JoinedLength(env, p, latest, keys);
    forall j | k < j < |c| ensures c[j].id != latest[x].supersededBy.value {
      JoinedIs(env, p, latest, keys, j);
      if j < |p| { assert p[j] in p && p[j].id in Ids(p); }
    }
    assert !ForwardLink(c, k);
  }

  lemma JoinedLength(env: Env, p: seq<Entry>, latest: seq<Entry>, keys: set<Key>)
    ensures |p| <= |JoinedEntries(env, p, latest, keys)|
  {
    hide Settle, Adopted;
  }

  /** Where a joined entry comes from. */
  lemma JoinedIs(env: Env, p: seq<Entry>, latest: seq<Entry>, keys: set<Key>, k: nat)
    requires k < |JoinedEntries(env, p, latest, keys)|
    ensures var c := JoinedEntries(env, p, latest, keys);
            && (k < |p| ==> c[k] == Settle(p[k], latest) && c[k].id == p[k].id)
            && (k >= |p| ==> exists x :: 0 <= x < |latest| && latest[x] == c[k] && Adoptable(env, Ids(p), keys, latest[x]))
  {
    hide Settle, Ids, Adoptable, Adopted;
    var c := JoinedEntries(env, p, latest, keys);
    if k < |p| {
      SettleEvolves(p[k], latest);
    } else {
      AdoptedIs(env, p, latest, keys, k - |p|);
      assert c[k] == Adopted(env, Ids(p), keys, latest)[k - |p|];
    }
  }

  lemma AdoptedIs(env: Env, p: seq<Entry>, latest: seq<Entry>, keys: set<Key>, a: nat)
    requires a < |Adopted(env, Ids(p), keys, latest)|
    ensures exists x :: 0 <= x < |latest| && latest[x] == Adopted(env, Ids(p), keys, latest)[a] && Adoptable(env, Ids(p), keys, latest[x])
  {
    hide Ids, Adoptable;
    assert Adopted(env, Ids(p), keys, latest)[a] in Adopted(env, Ids(p), keys, latest);
  }

  /** An own entry's link leads on: its own does in the copy, one taken over leads to an arrival. */
  lemma OwnLinkLeadsOn(env: Env, p: seq<Entry>, latest: seq<Entry>, keys: set<Key>, k: nat)
    requires Closed(p) && UniqueIds(latest) && TargetsArrive(env, p, latest, keys)
    requires k < |p| && |p| <= |JoinedEntries(env, p, latest, keys)| && JoinedEntries(env, p, latest, keys)[k].supersededBy.Some?
    ensures ForwardLink(JoinedEntries(env, p, latest, keys), k)
  {
    hide Settle, JoinedEntries, Adopted, Ids;
    var c := JoinedEntries(env, p, latest, keys);
    JoinedIs(env, p, latest, keys, k);
    if c[k].supersededBy == p[k].supersededBy {
      assert ForwardLink(p, k);
      var j :| k < j < |p| && p[k].supersededBy == Some(p[j].id);
      JoinedIs(env, p, latest, keys, j);
      assert c[k].supersededBy == Some(c[j].id);
    } else {
      var x := OvertakenFrom(p, latest, k);
      assert CarriedOver(env, p, keys, latest[x]);
      var y :| 0 <= y < |latest| && latest[y].id == c[k].supersededBy.value && Adoptable(env, Ids(p), keys, latest[y]);
      var j := AdoptedPlace(env, p, latest, keys, y);
      assert c[k].supersededBy == Some(c[j].id);
    }
  }

  lemma OvertakenFrom(p: seq<Entry>, latest: seq<Entry>, k: nat) returns (x: nat)
    requires UniqueIds(latest) && k < |p| && Settle(p[k], latest).supersededBy != p[k].supersededBy
    ensures x < |latest| && Overtaken(p, latest[x]) && latest[x].supersededBy == Settle(p[k], latest).supersededBy && latest[x].supersededBy.Some?
  {
    hide Settle;
    if forall i :: 0 <= i < |latest| ==> latest[i].id != p[k].id {
      SettleAlone(p[k], latest);
    }
    x :| 0 <= x < |latest| && latest[x].id == p[k].id;
    SettleIs(p[k], latest, x);
    assert ActiveIn(p, latest[x].id);
  }

  /** An arrival's link leads to a later arrival. */
  lemma ArrivalLinkLeadsOn(env: Env, p: seq<Entry>, latest: seq<Entry>, keys: set<Key>, k: nat)
    requires Closed(latest) && TargetsArrive(env, p, latest, keys) && UniqueIds(JoinedEntries(env, p, latest, keys))
    requires |p| <= k < |JoinedEntries(env, p, latest, keys)| && JoinedEntries(env, p, latest, keys)[k].supersededBy.Some?
    ensures ForwardLink(JoinedEntries(env, p, latest, keys), k)
  {
    hide Settle, Ids, Adoptable, JoinedEntries, Overtaken;
    var c := JoinedEntries(env, p, latest, keys);
    JoinedIs(env, p, latest, keys, k);
    var x :| 0 <= x < |latest| && latest[x] == c[k] && Adoptable(env, Ids(p), keys, latest[x]);
    assert CarriedOver(env, p, keys, latest[x]);
    var y :| 0 <= y < |latest| && latest[y].id == c[k].supersededBy.value && Adoptable(env, Ids(p), keys, latest[y]);
    assert ForwardLink(latest, x);
    var z :| x < z < |latest| && latest[x].supersededBy == Some(latest[z].id);
    SameId(latest, y, z);
    var a, b := ArrivalsInOrder(env, p, latest, keys, x, y);
    SameEntry(c, a, k);
    assert c[k].supersededBy == Some(c[b].id);
  }

  lemma ArrivalsInOrder(env: Env, p: seq<Entry>, latest: seq<Entry>, keys: set<Key>, x: nat, y: nat) returns (a: nat, b: nat)
    requires x < y < |latest| && Adoptable(env, Ids(p), keys, latest[x]) && Adoptable(env, Ids(p), keys, latest[y])
    ensures var c := JoinedEntries(env, p, latest, keys); a < b < |c| && c[a] == latest[x] && c[b] == latest[y]
  {
    hide Settle, Ids, Adoptable, Filter;
    a, b := FilterOrder(latest, e => Adoptable(env, Ids(p), keys, e), x, y);
    var more := Adopted(env, Ids(p), keys, latest);
    assert more[a] == latest[x] && more[b] == latest[y];
    a, b := |p| + a, |p| + b;
  }

  lemma SameEntry(c: seq<Entry>, i: nat, j: nat)
    requires UniqueIds(c) && i < |c| && j < |c| && c[i] == c[j]
    ensures i == j
  {
  }

  /** The joined registry's links are closed if and only if the target of every link carried over arrives. */
  lemma JoinedClosedIff(env: Env, p: seq<Entry>, latest: seq<Entry>, keys: set<Key>)
    requires Closed(p) && Closed(latest) && ReplacedByNews(latest, p) && UniqueIds(JoinedEntries(env, p, latest, keys))
    ensures Closed(JoinedEntries(env, p, latest, keys)) <==> TargetsArrive(env, p, latest, keys)
  {
    hide JoinedEntries, CarriedOver, Arrives, ReplacedByNews, ForwardLink, UniqueIds;
    var c := JoinedEntries(env, p, latest, keys);
    JoinedLength(env, p, latest, keys);
    ClosedIsUnique(latest);
    if TargetsArrive(env, p, latest, keys) {
      forall k | 0 <= k < |c| && c[k].supersededBy.Some? ensures ForwardLink(c, k) {
        if k < |p| { OwnLinkLeadsOn(env, p, latest, keys, k); } else { ArrivalLinkLeadsOn(env, p, latest, keys, k); }
      }
    } else {
      var x :| 0 <= x < |latest| && CarriedOver(env, p, keys, latest[x]) && latest[x].supersededBy.Some?
               && !Arrives(env, p, latest, keys, latest[x].supersededBy.value);
      StrayLink(env, p, latest, keys, x);
    }
  }

  lemma SameLinksClosed(r: seq<Entry>, r': seq<Entry>)
    requires SameLinks(r, r') && UniqueIds(r) && UniqueIds(r')
    ensures Closed(r) <==> Closed(r')
  {
    SameLinksLand(r, r');
    if Closed(r) { ClosedAfter(r, r'); }
    assert SameLinks(r', r);
    SameLinksLand(r', r);
    if Closed(r') { ClosedAfter(r', r); }
  }

  lemma CapSameLinks(env: Env, s: Ledger, now: nat)
    ensures SameLinks(s.registry, HoldToCap(env, s, now).registry)
  {
    hide HoldToCap;
    HoldToCapEntries(env, s, now);
    forall k | 0 <= k < |s.registry|
      ensures HoldToCap(env, s, now).registry[k].id == s.registry[k].id && HoldToCap(env, s, now).registry[k].supersededBy == s.registry[k].supersededBy
    {
      assert KeptOrEvicted(s.registry, HoldToCap(env, s, now).registry, k, now);
    }
  }

  /** A commit keeps the links closed if and only if the target of every link it carries over arrives. */
  lemma CommitClosedIff(env: Env, p: Ledger, latest: Ledger, keys: set<Key>, now: nat)
    requires Closed(p.registry) && Closed(latest.registry) && ReplacedByNews(latest.registry, p.registry)
    ensures Closed(CarryOver(env, p, latest, keys, now).registry) <==> TargetsArrive(env, p.registry, latest.registry, keys)
  {
    hide Closed, CarryAll, HoldToCap, RetireForgotten, JoinedEntries, TargetsArrive, ReplacedByNews, SameLinks, UniqueIds;
    var c := CarryAll(env, p, latest.registry, keys);
    var cleaned := RetireForgotten(env, c, keys, now).0;
    var r' := HoldToCap(env, cleaned, now).registry;
    ClosedIsUnique(p.registry);
    ClosedIsUnique(latest.registry);
    CarriedEntries(env, p, latest.registry, keys);
    CarriedUnique(env, p, latest.registry, keys);
    CarryOverUnique(env, p, latest, keys, now);
    ForgettingSameLinks(env, c, keys, now);
    CapSameLinks(env, cleaned, now);
    SameLinksTwice(c.registry, cleaned.registry, r');
    SameLinksClosed(c.registry, r');
    JoinedClosedIff(env, p.registry, latest.registry, keys);
  }

  lemma SameLinksTwice(a: seq<Entry>, b: seq<Entry>, c: seq<Entry>)
    requires SameLinks(a, b) && SameLinks(b, c)
    ensures SameLinks(a, c)
  {
  }

  // ---------------------------------------------------------------- whole runs

  /** Every link of the snapshot leads to a later entry, and so does every link of a digest's copy. */
  predicate ClosedWorld(w: World) {
    && Closed(Latest(w).registry)
    && (w.flight.Some? ==> Closed(w.flight.value.state.registry))
  }

  /** What replaced an entry meanwhile is unknown to the digest under way. */
  predicate FreshLinks(w: World) {
    w.flight.Some? ==> ReplacedByNews(Latest(w).registry, w.flight.value.state.registry)
  }

  /** The step is a commit that carries a link over without its target. */
  predicate Severs(env: Env, w: World, step: Step) {
    && step.DigestCommit? && w.flight.Some? && w.snapshot.Some?
    && !TargetsArrive(env, w.flight.value.state.registry, w.snapshot.value.registry, w.forgotten)
  }

  lemma NewsUnderGrowth(s: seq<Entry>, s': seq<Entry>, p: seq<Entry>, issued: set<Id>)
    requires ReplacedByNews(s, p) && Grows(s, s', issued) && Ids(p) !! issued
    ensures ReplacedByNews(s', p)
  {
    forall i, j | 0 <= i < |s'| && 0 <= j < |p| && s'[i].id == p[j].id && Active(p[j]) && s'[i].supersededBy.Some?
      ensures s'[i].supersededBy.value !in Ids(p)
    {
      assert p[j] in p && p[j].id in Ids(p);
      assert i < |s|;
      assert Evolves(s[i], s'[i]);
      if s[i].supersededBy.Some? { assert s[i].supersededBy.value !in Ids(p); }
    }
  }

  lemma NewsForFlight(s: seq<Entry>, p: seq<Entry>, p': seq<Entry>, issued: set<Id>)
    requires ReplacedByNews(s, p) && Grows(p, p', issued) && Names(s) !! issued
    ensures ReplacedByNews(s, p')
  {
    IdsAfterGrowth(p, p', issued);
    forall i, j | 0 <= i < |s| && 0 <= j < |p'| && s[i].id == p'[j].id && Active(p'[j]) && s[i].supersededBy.Some?
      ensures s[i].supersededBy.value !in Ids(p')
    {
      assert s[i] in s && s[i].id in Names(s) && s[i].supersededBy.value in Names(s);
      assert j < |p|;
      assert Evolves(p[j], p'[j]);
    }
  }

  lemma NewsAtBegin(s: seq<Entry>)
    requires UniqueIds(s)
    ensures ReplacedByNews(s, Normalize(s)) && ReplacedByNews(s, [])
  {
    var p := Normalize(s);
    forall i, j | 0 <= i < |s| && 0 <= j < |p| && s[i].id == p[j].id && Active(p[j]) ensures s[i].supersededBy.None? {
      assert p[j] in s;
      var k :| 0 <= k < |s| && s[k] == p[j];
      assert k == i;
    }
  }

  lemma FreshStep(env: Env, w: World, step: Step)
    requires PackFits(env) && Sound(env, w) && Lawful(w, step) && FreshLinks(w)
    ensures FreshLinks(Apply(env, w, step))
  {
    hide Remembered, ForgetIn, CarryOver, Perform, Normalize, Grows, ReplacedByNews, Tracks, LinksTrack, Names;
    var s := Latest(w).registry;
    match step {
      case Remember(text, stamp) =>
        IdsNamed(s);
        RememberedGrows(env, w, text, stamp);
        if w.flight.Some? {
          IdsNamed(w.flight.value.state.registry);
          NewsUnderGrowth(s, Remembered(env, w, text, stamp).registry, w.flight.value.state.registry, {stamp.id});
        }
      case Forget(key, now) =>
        ForgetGrows(env, w, key, now);
        if w.flight.Some? { NewsUnderGrowth(s, Latest(Effect(env, w, step)).registry, w.flight.value.state.registry, {}); }
      case DigestBegin | RebuildBegin(_) => NewsAtBegin(s);
      case DigestStep(work) =>
        if w.flight.Some? {
          var f := w.flight.value;
          WorkGrows(env, f.keys, f.state, work);
          NewsForFlight(s, f.state.registry, Perform(env, f.keys, f.state, work).registry, WorkIds(work));
        }
      case _ =>
    }
  }

  lemma NothingClosed()
    ensures Closed([])
  {
  }

  lemma RememberStaysClosed(env: Env, w: World, text: string, stamp: Stamp)
    requires Sound(env, w) && Lawful(w, Remember(text, stamp)) && Closed(Latest(w).registry)
    ensures Closed(Remembered(env, w, text, stamp).registry)
  {
    hide AddNote, Closed, LinksLand, Names, Tracks, LinksTrack, Grows;
    var s := Latest(w);
    var keys := if w.snapshot.None? then {} else w.forgotten;
    IdsNamed(s.registry);
    RememberedGrows(env, w, text, stamp);
    NoteReports(env, s, text, stamp, keys);
    NoteLands(env, s, text, stamp, keys);
    ClosedAfter(s.registry, Remembered(env, w, text, stamp).registry);
  }

  lemma ForgetStaysClosed(env: Env, w: World, key: Key, now: nat)
    requires Sound(env, w) && Closed(Latest(w).registry)
    ensures Closed(Latest(Effect(env, w, Forget(key, now))).registry)
  {
    hide RetireForgotten, Closed, SameLinks, Names, Tracks, LinksTrack;
    if w.snapshot.Some? {
      var r, r' := w.snapshot.value.registry, RetireForgotten(env, w.snapshot.value, {key}, now).0.registry;
      ForgettingSameLinks(env, w.snapshot.value, {key}, now);
      RetireForgottenGrows(env, w.snapshot.value, {key}, now);
      UniqueAfterOne(r, r', {});
      SameLinksClosed(r, r');
    }
  }

  lemma WorkStaysClosed(env: Env, w: World, work: Work)
    requires Sound(env, w) && Lawful(w, DigestStep(work)) && w.flight.Some? && Closed(w.flight.value.state.registry)
    ensures Closed(Perform(env, w.flight.value.keys, w.flight.value.state, work).registry)
  {
    hide Perform, Closed, LinksLand, Names, Tracks, LinksTrack;
    var f := w.flight.value;
    IdsNamed(f.state.registry);
    WorkUnique(env, f.keys, f.state, work);
    WorkLands(env, f.keys, f.state, work);
    ClosedAfter(f.state.registry, Perform(env, f.keys, f.state, work).registry);
  }

  /** A step keeps all links closed if and only if it is not a commit that severs one. */
  lemma ClosedStepIff(env: Env, w: World, step: Step)
    requires PackFits(env) && Sound(env, w) && Lawful(w, step) && FreshLinks(w) && ClosedWorld(w)
    ensures ClosedWorld(Apply(env, w, step)) <==> !Severs(env, w, step)
  {
    hide Remembered, ForgetIn, CarryOver, Perform, Normalize, Closed, ReplacedByNews, TargetsArrive, Tracks, LinksTrack;
    match step {
      case Remember(text, stamp) => RememberStaysClosed(env, w, text, stamp);
      case Forget(key, now) => ForgetStaysClosed(env, w, key, now);
      case DigestBegin | RebuildBegin(_) =>
        NormalizedIsClosed(Latest(w).registry);
        NothingClosed();
      case DigestStep(work) =>
        if w.flight.Some? { WorkStaysClosed(env, w, work); }
      case DigestCommit(now) =>
        if w.flight.Some? && w.snapshot.Some? {
          CommitClosedIff(env, w.flight.value.state, w.snapshot.value, w.forgotten, now);
        }
      case DigestAbort =>
    }
  }

  lemma {:induction false} FreshRun(env: Env, w: World, steps: seq<Step>)
    requires PackFits(env) && Sound(env, w) && LawfulRun(env, w, steps) && FreshLinks(w)
    ensures Sound(env, Run(env, w, steps)) && FreshLinks(Run(env, w, steps))
  {
    hide Sound, Lawful, Apply, FreshLinks;
    SoundRun(env, w, steps);
    if steps != [] {
      var n := |steps| - 1;
      LawfulPrefix(env, w, steps, n);
      FreshRun(env, w, steps[..n]);
      assert Lawful(Run(env, w, steps[..n]), steps[n]);
      FreshStep(env, Run(env, w, steps[..n]), steps[n]);
    }
  }

  lemma ClosedStepAt(env: Env, w: World, steps: seq<Step>, n: nat)
    requires PackFits(env) && Sound(env, w) && LawfulRun(env, w, steps) && FreshLinks(w) && n < |steps|
    requires ClosedWorld(Run(env, w, steps[..n]))
    ensures ClosedWorld(Run(env, w, steps[..n + 1])) <==> !Severs(env, Run(env, w, steps[..n]), steps[n])
  {
    hide Sound, Lawful, Apply, FreshLinks, ClosedWorld, Severs;
    LawfulPrefix(env, w, steps, n);
    FreshRun(env, w, steps[..n]);
    assert Lawful(Run(env, w, steps[..n]), steps[n]);
    assert steps[..n + 1][..n] == steps[..n];
    ClosedStepIff(env, Run(env, w, steps[..n]), steps[n]);
  }

  lemma {:induction false} ClosedSoFar(env: Env, w: World, steps: seq<Step>, n: nat)
    requires PackFits(env) && Sound(env, w) && LawfulRun(env, w, steps) && FreshLinks(w) && ClosedWorld(w) && n <= |steps|
    requires forall k :: 0 <= k < n ==> !Severs(env, Run(env, w, steps[..k]), steps[k])
    ensures ClosedWorld(Run(env, w, steps[..n]))
  {
    hide Sound, Lawful, Apply, FreshLinks, ClosedWorld, Severs;
    if n > 0 {
      ClosedSoFar(env, w, steps, n - 1);
      ClosedStepAt(env, w, steps, n - 1);
    }
  }

  /** All along a run, every link leads to a later entry if and only if no commit severs one. */
  lemma ClosedRunIff(env: Env, w: World, steps: seq<Step>)
    requires PackFits(env) && Sound(env, w) && LawfulRun(env, w, steps) && FreshLinks(w) && ClosedWorld(w)
    ensures (forall n :: 0 <= n <= |steps| ==> ClosedWorld(Run(env, w, steps[..n])))
       <==> (forall n :: 0 <= n < |steps| ==> !Severs(env, Run(env, w, steps[..n]), steps[n]))
  {
    hide Sound, Lawful, Apply, FreshLinks, ClosedWorld, Severs, Run;
    if forall n :: 0 <= n <= |steps| ==> ClosedWorld(Run(env, w, steps[..n])) {
      forall n | 0 <= n < |steps| ensures !Severs(env, Run(env, w, steps[..n]), steps[n]) {
        assert ClosedWorld(Run(env, w, steps[..n + 1]));
        ClosedStepAt(env, w, steps, n);
      }
    }
    if forall n :: 0 <= n < |steps| ==> !Severs(env, Run(env, w, steps[..n]), steps[n]) {
      forall n | 0 <= n <= |steps| ensures ClosedWorld(Run(env, w, steps[..n])) {
        ClosedSoFar(env, w, steps, n);
      }
    }
  }

  /** In a run that severs nothing, the history of any fact of the snapshot ends with a version nothing replaced. */
  lemma HistoriesAreComplete(env: Env, w: World, steps: seq<Step>, id: Id)
    requires PackFits(env) && Start(w) && LawfulRun(env, w, steps) && Closed(Latest(w).registry)
    requires forall n :: 0 <= n < |steps| ==> !Severs(env, Run(env, w, steps[..n]), steps[n])
    ensures var answer := BuildProvenance(Latest(Run(env, w, steps)).registry, id);
            answer.Some? ==> answer.value.chain != [] && answer.value.chain[|answer.value.chain| - 1].supersededBy.None?
  {
    hide Run, Closed, Severs, ChainAt, FindFact, Lawful;
    var r := Latest(Run(env, w, steps)).registry;
    ClosedSoFar(env, w, steps, |steps|);
    assert steps[..|steps|] == steps;
    var i := FindFact(r, id);
    if i < |r| { ClosedChainIsComplete(r, i); }
  }

  // ---------------------------------------------------------------- it can happen

  /** A note, and the store that holds it alone. */
  function OneNote(note: Stamp, text: string): Ledger {
    Ledger([NoteEntry(text, note)], map[NOTES := [text]])
  }

  lemma OneNoteRevised(env: Env, note: Stamp, text: string, line: string, stamp: Stamp)
    requires env.lex.trim(line) != "" && env.lex.canon(env.lex.trim(line)) != env.lex.canon(text) && env.lex.isRevision(text, env.lex.trim(line))
    ensures AddNote(env, OneNote(note, text), line, stamp, {}).state
         == Ledger([NoteEntry(text, note).(supersededBy := Some(stamp.id)), NoteEntry(env.lex.trim(line), stamp)], map[NOTES := [env.lex.trim(line)]])
  {
    hide Accumulate;
    var s, value := OneNote(note, text), env.lex.trim(line);
    assert Lines(s, NOTES) == [text];
    assert [text][0 := value] == [value];
    assert RevisedLine(env.lex, [text], value) == 0;
    assert ActiveNoteIndex(env.lex, s.registry, text) == 0;
  }

  lemma RevisionForgotten(env: Env, r: seq<Entry>, value: string, now: nat)
    requires |r| == 2 && !Active(r[0]) && Active(r[1]) && r[1].facet == Some(NOTES) && r[1].content == value
    requires env.pack.group(NOTES).Some?
    ensures var key := FactKey(env.lex, env.pack.group(NOTES).value, value);
            RetireForgotten(env, Ledger(r, map[NOTES := [value]]), {key}, now).1 > 0
            && RetireForgotten(env, Ledger(r, map[NOTES := [value]]), {key}, now).0.registry == [r[0], r[1].(retired := Some(Retirement(now, Forgotten)))]
  {
    var key := FactKey(env.lex, env.pack.group(NOTES).value, value);
    FilterNone([value], t => !NoteForgotten(env, {key}, t));
  }

  /** The revision is not adopted, so the link to it leads nowhere. */
  lemma RevisionStaysBehind(env: Env, mine: Entry, news: Entry, keys: set<Key>)
    requires Active(mine) && mine.facet == Some(NOTES) && !Active(news) && news.facet == Some(NOTES) && news.id != mine.id
    requires NoteForgotten(env, keys, news.content)
    ensures !TargetsArrive(env, [mine], [mine.(supersededBy := Some(news.id)), news], keys)
  {
    hide NoteForgotten;
    var latest := [mine.(supersededBy := Some(news.id)), news];
    assert [mine][0].id == latest[0].id;
    assert CarriedOver(env, [mine], keys, latest[0]);
    assert !Arrives(env, [mine], latest, keys, news.id);
  }

  lemma RevisedIsClosed(a: Entry, b: Entry)
    requires a.id != b.id && a.supersededBy == Some(b.id) && b.supersededBy.None?
    ensures Closed([a, b])
  {
    var r := [a, b];
    assert r[0].supersededBy == Some(r[1].id);
  }

  /** What the snapshot holds of a note revised by another that was then forgotten. */
  function RevisedAway(note: Stamp, text: string, value: string, stamp: Stamp, later: nat): seq<Entry> {
    [NoteEntry(text, note).(supersededBy := Some(stamp.id)), NoteEntry(value, stamp).(retired := Some(Retirement(later, Forgotten)))]
  }

  /**
   * A note is revised and the revision forgotten while a digest runs. The commit takes the link over
   * and not the revision: the note's history ends in the middle.
   */
  lemma ForgottenRevisionDangles(env: Env, note: Stamp, text: string, line: string, stamp: Stamp, later: nat, now: nat)
    requires stamp.id != note.id && env.pack.group(NOTES).Some?
    requires env.lex.trim(line) != "" && env.lex.canon(env.lex.trim(line)) != env.lex.canon(text) && env.lex.isRevision(text, env.lex.trim(line))
    ensures var key := FactKey(env.lex, env.pack.group(NOTES).value, env.lex.trim(line));
            var begun := Apply(env, World(Some(OneNote(note, text)), {}, None, {note.id}), DigestBegin);
            var changed := Apply(env, Apply(env, begun, Remember(line, stamp)), Forget(key, later));
            && ClosedWorld(changed) && Severs(env, changed, DigestCommit(now))
            && !Closed(Latest(Apply(env, changed, DigestCommit(now))).registry)
  {
    hide AddNote, RetireForgotten, CarryOver, Normalize, Closed, TargetsArrive;
    var value := env.lex.trim(line);
    var key := FactKey(env.lex, env.pack.group(NOTES).value, value);
    var s := OneNote(note, text);
    NormalizeAllActive(s.registry);
    OneNoteRevised(env, note, text, line, stamp);
    NoteReports(env, s, line, stamp, {});
    var written := AddNote(env, s, line, stamp, {}).state;
    RevisionForgotten(env, written.registry, value, later);
    RevisionStaysBehind(env, NoteEntry(text, note), NoteEntry(value, stamp).(retired := Some(Retirement(later, Forgotten))), {key});
    RevisedIsClosed(RevisedAway(note, text, value, stamp, later)[0], RevisedAway(note, text, value, stamp, later)[1]);
    OneIsClosed(NoteEntry(text, note));
    var start := World(Some(s), {}, None, {note.id});
    var begun := Apply(env, start, DigestBegin);
    assert begun == start.(flight := Some(Flight({}, s)), issued := start.issued + {});
    var met := Apply(env, begun, Remember(line, stamp));
    assert met == begun.(snapshot := Some(written), issued := begun.issued + {stamp.id});
    var changed := Apply(env, met, Forget(key, later));
    assert changed.forgotten == {} + {key} == {key} && changed.flight == Some(Flight({}, s));
    assert Latest(changed).registry == RevisedAway(note, text, value, stamp, later);
    NewsHere(note, text, value, stamp, later);
    CommitClosedIff(env, s, Latest(changed), {key}, now);
  }

  lemma OneIsClosed(e: Entry)
    requires e.supersededBy.None?
    ensures Closed([e])
  {
  }

  lemma NewsHere(note: Stamp, text: string, value: string, stamp: Stamp, later: nat)
    requires stamp.id != note.id
    ensures ReplacedByNews(RevisedAway(note, text, value, stamp, later), OneNote(note, text).registry)
  {
  }
}
