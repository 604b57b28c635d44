/**
 * What one profile fact of a digest run does (packages/core/src/digest/merge.ts:269-523): which line
 * it replaces, takes or is refused for, what is logged as dropped, and what the registry records.
 */
module FactOutcomes {
  import opened Options
  import opened Seqs
  import opened FactRegistry
  import opened DigestFacts

  /** The other facets keep their lines. */
  ghost predicate OthersKept(s: Ledger, s': Ledger, facet: string) {
    forall f :: f != facet ==> Lines(s', f) == Lines(s, f)
  }

  /** The registry with the entry appended, unless an unsuperseded one states the same fact. */
  function WithFact(lex: Lexicon, r: seq<Entry>, e: Entry): seq<Entry> {
    if exists x :: x in r && x.supersededBy.None? && lex.sameFact(x.content, e.content) then r else r + [e]
  }

  lemma PromoteIs(lex: Lexicon, s: Ledger, content: string, kind: Kind, confidence: real, ev: Evidence, id: Id, facet: Option<string>, now: nat, entities: seq<string>)
    requires |lex.trim(content)| <= 500
    ensures var s' := Promote(lex, s, content, kind, confidence, ev, id, facet, now, entities);
            && s'.profile == s.profile
            && s'.registry == WithFact(lex, s.registry, Entry(id, content, kind, confidence, now, ev.id, ev.source, facet, entities, None, None, None))
  {
  }

  // ---------------------------------------------------------------- routed events

  /** An entry the run started with, not superseded since, states the line in its facet. */
  predicate Protects(lex: Lexicon, r: seq<Entry>, previous: set<Id>, facet: string, line: string) {
    exists e :: e in r && e.id in previous && e.supersededBy.None? && e.facet == Some(facet) && lex.sameFact(e.content, line)
  }

  /** An event that enters its facet after `room`; a write-protected facet's registry states it. */
  ghost predicate EventEnters(env: Env, s: Ledger, result: FactResult, facet: string, value: string, room: seq<string>, eventId: Id, id: Id, now: nat) {
    && Lines(result.state, facet) == room + [value]
    && result.state.registry ==
         if env.pack.writeProtected(facet)
         then WithFact(env.lex, s.registry, Entry(id, value, Profile, 0.7, now, eventId, EventSource, Some(facet), [], None, None, None))
         else s.registry
  }

  /**
   * An event routed to a facet replaces the line that states it, unless that is protected; enters
   * while there is room; takes the place of the first unprotected line, logged as evicted; or is
   * logged as refused.
   */
  ghost predicate EventLaw(env: Env, s: Ledger, result: FactResult, facet: string, value: string, eventId: Id, previous: set<Id>, id: Id, now: nat) {
    var lines, r := Lines(s, facet), s.registry;
    var protect := env.pack.writeProtected(facet);
    var i := First(lines, t => env.lex.sameFact(t, value));
    var j := if protect then First(lines, t => !Protects(env.lex, r, previous, facet, t)) else 0;
    && OthersKept(s, result.state, facet)
    && if i < |lines| then
         && result.drops == [] && result.state.registry == r
         && Lines(result.state, facet) == if protect && Protects(env.lex, r, previous, facet, lines[i]) then lines else lines[i := value]
       else if |lines| < env.pack.cap(facet) then
         result.drops == [] && EventEnters(env, s, result, facet, value, lines, eventId, id, now)
       else if j < |lines| then
         && result.drops == (if lines[j] == "" then [] else [Drop(LineEvicted, facet, lines[j])])
         && EventEnters(env, s, result, facet, value, lines[..j] + lines[j + 1..], eventId, id, now)
       else if protect then
         result.drops == [Drop(CapRejectedIncoming, facet, value)] && Lines(result.state, facet) == lines && result.state.registry == r
       else
         result.drops == [] && EventEnters(env, s, result, facet, value, lines, eventId, id, now)
  }

  lemma PushRoutedIs(env: Env, s: Ledger, facet: string, value: string, eventId: Id, id: Id, now: nat)
    requires |env.lex.trim(value)| <= 500
    ensures var s' := PushRouted(env.lex, s, facet, env.pack.writeProtected(facet), value, eventId, id, now);
            && OthersKept(s, s', facet)
            && EventEnters(env, s, FactResult(s', []), facet, value, Lines(s, facet), eventId, id, now)
  {
    hide Promote, WithFact;
    var pushed := SetLines(s, facet, Lines(s, facet) + [value]);
    PromoteIs(env.lex, pushed, value, Profile, 0.7, Evidence(eventId, EventSource), id, Some(facet), now, []);
  }

  lemma UnprotectedIs(lex: Lexicon, r: seq<Entry>, previous: set<Id>, facet: string, lines: seq<string>)
    ensures UnprotectedLine(lex, r, previous, facet, lines) == First(lines, t => !Protects(lex, r, previous, facet, t))
  {
    forall t ensures ProtectedLine(lex, r, previous, facet, t) <==> Protects(lex, r, previous, facet, t) {
    }
    FirstIs(lines, t => !Protects(lex, r, previous, facet, t), UnprotectedLine(lex, r, previous, facet, lines));
  }

  lemma EvictedRoom(env: Env, s: Ledger, facet: string, j: nat, value: string, eventId: Id, id: Id, now: nat)
    requires |env.lex.trim(value)| <= 500 && j < |Lines(s, facet)|
    ensures var lines := Lines(s, facet);
            var s' := PushRouted(env.lex, SetLines(s, facet, RemoveAt(lines, j)), facet, env.pack.writeProtected(facet), value, eventId, id, now);
            && OthersKept(s, s', facet)
            && EventEnters(env, s, FactResult(s', []), facet, value, lines[..j] + lines[j + 1..], eventId, id, now)
  {
    hide PushRouted, WithFact;
    PushRoutedIs(env, SetLines(s, facet, RemoveAt(Lines(s, facet), j)), facet, value, eventId, id, now);
  }

  lemma DropsAside(env: Env, s: Ledger, s': Ledger, drops: seq<Drop>, facet: string, value: string, room: seq<string>, eventId: Id, id: Id, now: nat)
    ensures EventEnters(env, s, FactResult(s', drops), facet, value, room, eventId, id, now) <==> EventEnters(env, s, FactResult(s', []), facet, value, room, eventId, id, now)
  {
    hide WithFact;
  }

  lemma RouteFactIs(env: Env, s: Ledger, facet: string, value: string, eventId: Id, previous: set<Id>, id: Id, now: nat)
    requires |env.lex.trim(value)| <= 500
    ensures EventLaw(env, s, RouteFact(env, s, facet, value, eventId, previous, id, now), facet, value, eventId, previous, id, now)
  {
    hide PushRouted, WithFact, UnprotectedLine, Protects, ProtectedLine, EventEnters, First, RemoveAt;
    var lines, protect := Lines(s, facet), env.pack.writeProtected(facet);
    var i := SameLine(env.lex, lines, value);
    FirstIs(lines, t => env.lex.sameFact(t, value), i);
    if i < |lines| {
      ProtectionIs(env.lex, s.registry, previous, facet, lines[i]);
    } else {
      UnprotectedIs(env.lex, s.registry, previous, facet, lines);
      PushRoutedIs(env, s, facet, value, eventId, id, now);
      var j := if protect then UnprotectedLine(env.lex, s.registry, previous, facet, lines) else 0;
      if j < |lines| {
        EvictedRoom(env, s, facet, j, value, eventId, id, now);
        var result := RouteFact(env, s, facet, value, eventId, previous, id, now);
        DropsAside(env, s, result.state, result.drops, facet, value, lines[..j] + lines[j + 1..], eventId, id, now);
      }
    }
  }

  lemma ProtectionIs(lex: Lexicon, r: seq<Entry>, previous: set<Id>, facet: string, line: string)
    ensures ProtectedLine(lex, r, previous, facet, line) <==> Protects(lex, r, previous, facet, line)
  {
  }

  /** One routed event: nothing without a route or a text, a drop when it is too long, and else what the law says. */
  ghost predicate RoutedLaw(env: Env, s: Ledger, evt: RoutedEvent, previous: set<Id>, id: Id, now: nat, result: FactResult) {
    var route, value := env.pack.route(evt.classifiedType), env.lex.trim(evt.content);
    if route.None? || value == "" then result == FactResult(s, [])
    else if |env.lex.trim(value)| > 500 then result == FactResult(s, [Drop(FactTooLong, route.value, value)])
    else EventLaw(env, s, result, route.value, value, evt.id, previous, id, now)
  }

  lemma RoutedEventIs(env: Env, s: Ledger, evt: RoutedEvent, previous: set<Id>, id: Id, now: nat)
    ensures RoutedLaw(env, s, evt, previous, id, now, RouteEvent(env, s, evt, previous, id, now))
  {
    hide RouteFact, EventEnters, Protects;
    var route, value := env.pack.route(evt.classifiedType), env.lex.trim(evt.content);
    if route.Some? && value != "" && |env.lex.trim(value)| <= 500 {
      RouteFactIs(env, WithFacet(s, route.value), route.value, value, evt.id, previous, id, now);
      EventLawStays(env, s, WithFacet(s, route.value), RouteEvent(env, s, evt, previous, id, now), route.value, value, evt.id, previous, id, now);
    }
  }

  lemma EventLawStays(env: Env, s: Ledger, s1: Ledger, result: FactResult, facet: string, value: string, eventId: Id, previous: set<Id>, id: Id, now: nat)
    requires s1.registry == s.registry && forall f :: Lines(s1, f) == Lines(s, f)
    requires EventLaw(env, s1, result, facet, value, eventId, previous, id, now)
    ensures EventLaw(env, s, result, facet, value, eventId, previous, id, now)
  {
    hide Protects, WithFact, Lines;
  }

  // ---------------------------------------------------------------- facts the model extracted

  /** The document, when the facet wants one or there is no stream; else the stream. */
  function SourceOf(pack: Pack, facet: string, from: Sources): Option<Evidence> {
    if !pack.documentAuthority(facet) && from.stream.Some? then Some(Evidence(from.stream.value, EventSource))
    else if from.document.Some? then Some(Evidence(from.document.value, DocumentSource))
    else None
  }

  function RankOfSource(ev: Option<Evidence>): real {
    if ev.Some? && ev.value.source == DocumentSource then 0.85 else 0.6
  }

  /** The first active fact no caller wrote that states the line. */
  function StandingFor(lex: Lexicon, r: seq<Entry>, line: string): nat {
    First(r, (e: Entry) => e.supersededBy.None? && e.retired.None? && e.kind == Profile && !IsCallerNote(e, r) && lex.sameFact(e.content, line))
  }

  /** The registry with the first unsuperseded entry no caller wrote that states the line linked to the new one; as it is when there is none. */
  function Relinked(lex: Lexicon, r: seq<Entry>, line: string, e: Entry): seq<Entry> {
    var t := First(r, (x: Entry) => x.supersededBy.None? && !IsCallerNote(x, r) && lex.sameFact(x.content, line));
    if t < |r| then r[t := r[t].(supersededBy := Some(e.id))] + [e] else r
  }

  function FactEntry(id: Id, value: string, now: nat, ev: Evidence, facet: string, entities: seq<string>): Entry {
    Entry(id, value, Profile, RankOfSource(Some(ev)), now, ev.id, ev.source, Some(facet), entities, None, None, None)
  }

  /**
   * A fact that restates line `i`: a caller's line and, in a protected facet, one of higher rank
   * stay, and a rewording is logged; else the line takes the new wording, and a new wording or a
   * stronger source is linked in the registry.
   */
  ghost predicate RestateLaw(env: Env, s: Ledger, result: FactResult, facet: string, i: nat, value: string, entities: seq<string>, ev: Option<Evidence>, id: Id, now: nat)
    requires i < |Lines(s, facet)|
  {
    var lines, r := Lines(s, facet), s.registry;
    var changed := env.lex.trim(lines[i]) != env.lex.trim(value);
    var a := StandingFor(env.lex, r, lines[i]);
    if IsCallerNoteText(env.lex, r, facet, lines[i]) then
      result == FactResult(s, if changed then [Drop(ProtectedLowerAuthority, facet, value)] else [])
    else if env.pack.writeProtected(facet) && a < |r| && RankOfSource(ev) < r[a].confidence then
      result == FactResult(s, [Drop(ProtectedLowerAuthority, facet, value)])
    else
      && result.drops == [] && OthersKept(s, result.state, facet)
      && Lines(result.state, facet) == (if changed then lines[i := value] else lines)
      && result.state.registry ==
           if ev.Some? && (changed || (a < |r| && RankOfSource(ev) > r[a].confidence))
           then Relinked(env.lex, r, lines[i], FactEntry(id, value, now, ev.value, facet, entities)) else r
  }

  /** A fact that enters its facet after `room`, with a source stated in the registry `r`. */
  ghost predicate FactEnters(env: Env, result: FactResult, facet: string, value: string, entities: seq<string>, room: seq<string>, r: seq<Entry>, ev: Option<Evidence>, id: Id, now: nat) {
    && Lines(result.state, facet) == room + [value]
    && result.state.registry == if ev.Some? then WithFact(env.lex, r, FactEntry(id, value, now, ev.value, facet, entities)) else r
  }

  /** The registry with the first active entry of the facet, or of none, that no caller wrote and that states the line retired as evicted. */
  function EvictedFrom(lex: Lexicon, r: seq<Entry>, facet: string, line: string, now: nat): seq<Entry> {
    var t := First(r, (e: Entry) =>
      && e.supersededBy.None? && e.retired.None? && (e.facet.None? || e.facet == Some(facet))
      && !IsCallerNote(e, r) && lex.sameFact(e.content, line));
    if t < |r| then r[t := r[t].(retired := Some(Retirement(now, CapEvicted)))] else r
  }

  /**
   * A fact no line states enters while there is room; in a full facet that is not protected it takes
   * the place of the first line no caller wrote, which is logged and retired; else it is refused.
   */
  ghost predicate AppendLaw(env: Env, s: Ledger, result: FactResult, facet: string, value: string, entities: seq<string>, ev: Option<Evidence>, id: Id, now: nat) {
    var lines, r := Lines(s, facet), s.registry;
    var j := First(lines, t => !IsCallerNoteText(env.lex, r, facet, t));
    && OthersKept(s, result.state, facet)
    && if |lines| < env.pack.cap(facet) then
         result.drops == [] && FactEnters(env, result, facet, value, entities, lines, r, ev, id, now)
       else if env.pack.writeProtected(facet) || j == |lines| then
         result == FactResult(s, [Drop(CapRejectedIncoming, facet, value)])
       else if j < |lines| then
         && result.drops == (if lines[j] == "" then [] else [Drop(LineEvicted, facet, lines[j])])
         && FactEnters(env, result, facet, value, entities, lines[..j] + lines[j + 1..],
                       if lines[j] == "" then r else EvictedFrom(env.lex, r, facet, lines[j], now), ev, id, now)
       else false
  }

  lemma StandingIs(lex: Lexicon, r: seq<Entry>, line: string)
    ensures AuthorityIndex(lex, r, line) == StandingFor(lex, r, line)
  {
    var i := AuthorityIndex(lex, r, line);
    forall j | 0 <= j < i
      ensures !(r[j].supersededBy.None? && r[j].retired.None? && r[j].kind == Profile && !IsCallerNote(r[j], r) && lex.sameFact(r[j].content, line))
    {
      assert !Authoritative(lex, r, line, r[j]);
    }
    FirstIs(r, (e: Entry) => e.supersededBy.None? && e.retired.None? && e.kind == Profile && !IsCallerNote(e, r) && lex.sameFact(e.content, line), i);
  }

  lemma RelinkedIs(lex: Lexicon, s: Ledger, line: string, value: string, ev: Evidence, id: Id, facet: string, entities: seq<string>, now: nat)
    ensures var s' := Supersede(lex, s, line, value, ev, id, facet, RankOfSource(Some(ev)), entities, now);
            s'.profile == s.profile && s'.registry == Relinked(lex, s.registry, line, FactEntry(id, value, now, ev, facet, entities))
  {
    var r := s.registry;
    var i := SupersedeTarget(lex, r, line);
    forall j | 0 <= j < i ensures !(r[j].supersededBy.None? && !IsCallerNote(r[j], r) && lex.sameFact(r[j].content, line)) {
      assert !Supersedable(lex, r, line, r[j]);
    }
    FirstIs(r, (x: Entry) => x.supersededBy.None? && !IsCallerNote(x, r) && lex.sameFact(x.content, line), i);
  }

  lemma EvictedIs(lex: Lexicon, s: Ledger, facet: string, line: string, now: nat)
    ensures var s' := RetireFact(lex, s, line, CapEvicted, now, facet, false, true);
            s'.profile == s.profile && s'.registry == EvictedFrom(lex, s.registry, facet, line, now)
  {
    var r := s.registry;
    var i := RetireTarget(lex, r, line, facet, false, true);
    forall j | 0 <= j < i
      ensures !(r[j].supersededBy.None? && r[j].retired.None? && (r[j].facet.None? || r[j].facet == Some(facet))
                && !IsCallerNote(r[j], r) && lex.sameFact(r[j].content, line))
    {
      assert !Retirable(lex, r, line, facet, false, true, r[j]);
    }
    FirstIs(r, (e: Entry) =>
      && e.supersededBy.None? && e.retired.None? && (e.facet.None? || e.facet == Some(facet))
      && !IsCallerNote(e, r) && lex.sameFact(e.content, line), i);
  }

  lemma RestateIs(env: Env, s: Ledger, facet: string, i: nat, value: string, entities: seq<string>, ev: Option<Evidence>, id: Id, now: nat)
    requires i < |Lines(s, facet)|
    ensures RestateLaw(env, s, Restate(env, s, facet, i, value, entities, ev, id, now), facet, i, value, entities, ev, id, now)
  {
    hide AuthorityIndex, StandingFor, Supersede, Relinked, IsCallerNoteText;
    var line := Lines(s, facet)[i];
    StandingIs(env.lex, s.registry, line);
    if ev.Some? { RelinkedIs(env.lex, s, line, value, ev.value, id, facet, entities, now); }
  }

  lemma PushFactIs(env: Env, s: Ledger, facet: string, value: string, entities: seq<string>, ev: Option<Evidence>, id: Id, now: nat)
    requires |env.lex.trim(value)| <= 500
    ensures var s' := PushFact(env.lex, s, facet, value, entities, ev, id, now);
            OthersKept(s, s', facet) && FactEnters(env, FactResult(s', []), facet, value, entities, Lines(s, facet), s.registry, ev, id, now)
  {
    hide Promote, WithFact;
    if ev.Some? {
      PromoteIs(env.lex, SetLines(s, facet, Lines(s, facet) + [value]), value, Profile, Authority(ev), ev.value, id, Some(facet), now, entities);
    }
  }

  lemma EntersAside(env: Env, s': Ledger, drops: seq<Drop>, facet: string, value: string, entities: seq<string>, room: seq<string>, r: seq<Entry>, ev: Option<Evidence>, id: Id, now: nat)
    ensures FactEnters(env, FactResult(s', drops), facet, value, entities, room, r, ev, id, now)
       <==> FactEnters(env, FactResult(s', []), facet, value, entities, room, r, ev, id, now)
  {
    hide WithFact;
  }

  /** The fact takes the place of line `j`. */
  lemma ReplacesIs(env: Env, s: Ledger, facet: string, j: nat, value: string, entities: seq<string>, ev: Option<Evidence>, id: Id, now: nat)
    requires |env.lex.trim(value)| <= 500 && j < |Lines(s, facet)|
    ensures var lines := Lines(s, facet);
            var room := SetLines(s, facet, RemoveAt(lines, j));
            var s' := PushFact(env.lex, if lines[j] == "" then room else RetireFact(env.lex, room, lines[j], CapEvicted, now, facet, false, true), facet, value, entities, ev, id, now);
            && OthersKept(s, s', facet)
            && FactEnters(env, FactResult(s', []), facet, value, entities, lines[..j] + lines[j + 1..],
                          if lines[j] == "" then s.registry else EvictedFrom(env.lex, s.registry, facet, lines[j], now), ev, id, now)
  {
    hide PushFact, WithFact, RetireFact, EvictedFrom;
    var lines := Lines(s, facet);
    var room := SetLines(s, facet, RemoveAt(lines, j));
    EvictedIs(env.lex, room, facet, lines[j], now);
    PushFactIs(env, if lines[j] == "" then room else RetireFact(env.lex, room, lines[j], CapEvicted, now, facet, false, true), facet, value, entities, ev, id, now);
  }

  lemma AppendIs(env: Env, s: Ledger, facet: string, value: string, entities: seq<string>, ev: Option<Evidence>, id: Id, now: nat)
    requires |env.lex.trim(value)| <= 500
    ensures AppendLaw(env, s, Append(env, s, facet, value, entities, ev, id, now), facet, value, entities, ev, id, now)
  {
    hide PushFact, WithFact, RetireFact, EvictedFrom, FactEnters, IsCallerNoteText, RemoveAt, First, DigestLine;
    var lines := Lines(s, facet);
    var j := DigestLine(env.lex, s.registry, facet, lines);
    FirstIs(lines, t => !IsCallerNoteText(env.lex, s.registry, facet, t), j);
    PushFactIs(env, s, facet, value, entities, ev, id, now);
    if j < |lines| {
      var result := Append(env, s, facet, value, entities, ev, id, now);
      ReplacesIs(env, s, facet, j, value, entities, ev, id, now);
      EntersAside(env, result.state, result.drops, facet, value, entities, lines[..j] + lines[j + 1..],
                  if lines[j] == "" then s.registry else EvictedFrom(env.lex, s.registry, facet, lines[j], now), ev, id, now);
    }
  }

  /** The ledger with a list for the facet. */
  function Listed(s: Ledger, facet: string): Ledger {
    if facet in s.profile then s else Ledger(s.registry, s.profile[facet := []])
  }

  /** One extracted fact: empty ones go unnoticed, inadmissible ones are logged, and the others restate the first line that states them or enter. */
  ghost predicate ExtractedLaw(env: Env, s: Ledger, fact: ProposedFact, from: Sources, id: Id, now: nat, result: FactResult) {
    var facet, value := env.lex.trim(fact.facet), env.lex.stripIds(env.lex.trim(fact.value));
    var ev := SourceOf(env.pack, facet, from);
    if value == "" then result == FactResult(s, [])
    else if !env.pack.registered(facet) then result == FactResult(s, [Drop(FacetNotRegistered, facet, value)])
    else if |env.lex.trim(value)| > 500 then result == FactResult(s, [Drop(FactTooLong, facet, value)])
    else if env.pack.documentAuthority(facet) && from.document.None? then result == FactResult(s, [Drop(NoDocumentEvidence, facet, value)])
    else
      var lines := Lines(Listed(s, facet), facet);
      var i := First(lines, t => env.lex.sameFact(t, value));
      if i < |lines| then RestateLaw(env, Listed(s, facet), result, facet, i, value, fact.entities, ev, id, now)
      else AppendLaw(env, Listed(s, facet), result, facet, value, fact.entities, ev, id, now)
  }

  lemma ExtractedFactIs(env: Env, s: Ledger, fact: ProposedFact, from: Sources, id: Id, now: nat)
    ensures ExtractedLaw(env, s, fact, from, id, now, ApplyFact(env, s, fact, from, id, now))
  {
    hide Restate, Append, RestateLaw, AppendLaw, SameLine, First;
    var facet, value := env.lex.trim(fact.facet), env.lex.stripIds(env.lex.trim(fact.value));
    var ready := Listed(s, facet);
    var lines := Lines(ready, facet);
    var ev := SourceOf(env.pack, facet, from);
    var i := SameLine(env.lex, lines, value);
    FirstIs(lines, t => env.lex.sameFact(t, value), i);
    if i < |lines| { RestateIs(env, ready, facet, i, value, fact.entities, ev, id, now); }
    if |env.lex.trim(value)| <= 500 { AppendIs(env, ready, facet, value, fact.entities, ev, id, now); }
  }

  // ---------------------------------------------------------------- whole lists

  /** What one step of a run adds to the drops, with the ledger it leaves. */
  function StepResult(before: FactResult, after: FactResult): FactResult
    requires before.drops <= after.drops
  {
    FactResult(after.state, after.drops[|before.drops|..])
  }

  /** The results after each fact, in order, from none. */
  ghost predicate ExtractedRun(env: Env, s: Ledger, facts: seq<ProposedFact>, from: Sources, ids: seq<Id>, now: nat, results: seq<FactResult>)
    requires |facts| == |ids|
  {
    && |results| == |facts| + 1 && results[0] == FactResult(s, [])
    && forall i :: 0 <= i < |facts| ==>
         && results[i].drops <= results[i + 1].drops
         && ExtractedLaw(env, results[i].state, facts[i], from, ids[i], now, StepResult(results[i], results[i + 1]))
  }

  /** Every fact of a list, in order, does what the law says. */
  lemma {:induction false} ExtractedFactsAre(env: Env, s: Ledger, facts: seq<ProposedFact>, from: Sources, ids: seq<Id>, now: nat) returns (results: seq<FactResult>)
    requires |facts| == |ids|
    ensures ExtractedRun(env, s, facts, from, ids, now, results) && results[|facts|] == ApplyFacts(env, s, facts, from, ids, now)
  {
    hide ExtractedLaw, ApplyFact;
    if facts == [] {
      results := [FactResult(s, [])];
    } else {
      var n := |facts| - 1;
      var before := ExtractedFactsAre(env, s, facts[..n], from, ids[..n], now);
      ExtractedFactIs(env, before[n].state, facts[n], from, ids[n], now);
      results := before + [ApplyFacts(env, s, facts, from, ids, now)];
      assert StepResult(results[n], results[n + 1]) == ApplyFact(env, before[n].state, facts[n], from, ids[n], now);
      forall i | 0 <= i < n ensures ExtractedLaw(env, results[i].state, facts[i], from, ids[i], now, StepResult(results[i], results[i + 1])) {
        assert facts[..n][i] == facts[i] && ids[..n][i] == ids[i] && before[i] == results[i] && before[i + 1] == results[i + 1];
      }
    }
  }

  ghost predicate RoutedRun(env: Env, s: Ledger, events: seq<RoutedEvent>, previous: set<Id>, ids: seq<Id>, now: nat, results: seq<FactResult>)
    requires |events| == |ids|
  {
    && |results| == |events| + 1 && results[0] == FactResult(s, [])
    && forall i :: 0 <= i < |events| ==>
         && results[i].drops <= results[i + 1].drops
         && RoutedLaw(env, results[i].state, events[i], previous, ids[i], now, StepResult(results[i], results[i + 1]))
  }

  /** Every routed event of a list, in order, does what the law says. */
  lemma {:induction false} RoutedEventsAre(env: Env, s: Ledger, events: seq<RoutedEvent>, previous: set<Id>, ids: seq<Id>, now: nat) returns (results: seq<FactResult>)
    requires |events| == |ids|
    ensures RoutedRun(env, s, events, previous, ids, now, results) && results[|events|] == RouteEvents(env, s, events, previous, ids, now)
  {
    hide RoutedLaw, RouteEvent;
    if events == [] {
      results := [FactResult(s, [])];
    } else {
      var n := |events| - 1;
      var before := RoutedEventsAre(env, s, events[..n], previous, ids[..n], now);
      RoutedEventIs(env, before[n].state, events[n], previous, ids[n], now);
      results := before + [RouteEvents(env, s, events, previous, ids, now)];
      assert StepResult(results[n], results[n + 1]) == RouteEvent(env, before[n].state, events[n], previous, ids[n], now);
      forall i | 0 <= i < n ensures RoutedLaw(env, results[i].state, events[i], previous, ids[i], now, StepResult(results[i], results[i + 1])) {
        assert events[..n][i] == events[i] && ids[..n][i] == ids[i] && before[i] == results[i] && before[i + 1] == results[i + 1];
      }
    }
  }
}
