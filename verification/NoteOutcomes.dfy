/**
 * What remembering a note writes (packages/core/src/digest/fact-registry.ts:220-405), branch by
 * branch: which line it replaces or takes, which entry is linked to it, which one it pushes out, and
 * what the caller is told it replaced.
 */
module NoteOutcomes {
  import opened Options
  import opened Seqs
  import opened FactRegistry
  import opened MemoryFacts

  predicate OnRecord(e: Entry) {
    e.supersededBy.None? && e.retired.None? && e.facet == Some(NOTES)
  }

  predicate KeyForgotten(env: Env, keys: set<Key>, text: string) {
    GroupForgets(env.lex, env.pack.group(NOTES), keys, text)
  }

  function Healed(env: Env, s: Ledger, keys: set<Key>, now: nat): Ledger {
    RetireForgotten(env, s, keys, now).0
  }

  // ---------------------------------------------------------------- forgetting

  /** Healing takes out the forgotten lines and retires the forgotten active notes, and nothing else. */
  lemma HealingIs(env: Env, s: Ledger, keys: set<Key>, now: nat)
    ensures var (h, count) := RetireForgotten(env, s, keys, now);
            && Lines(h, NOTES) == Filter(Lines(s, NOTES), t => !KeyForgotten(env, keys, t))
            && (forall f :: f != NOTES ==> Lines(h, f) == Lines(s, f))
            && |h.registry| == |s.registry|
            && (forall i :: 0 <= i < |s.registry| ==>
                  h.registry[i] == if OnRecord(s.registry[i]) && KeyForgotten(env, keys, s.registry[i].content)
                                   then s.registry[i].(retired := Some(Retirement(now, Forgotten))) else s.registry[i])
            && count == |Lines(s, NOTES)| - |Lines(h, NOTES)| + Count(s.registry, (e: Entry) => OnRecord(e) && KeyForgotten(env, keys, e.content))
  {
    var lines, r := Lines(s, NOTES), s.registry;
    FilterSame(lines, t => !NoteForgotten(env, keys, t), t => !KeyForgotten(env, keys, t));
    CountSame(r, (e: Entry) => ForgottenHere(env, keys, e), (e: Entry) => OnRecord(e) && KeyForgotten(env, keys, e.content));
    if keys == {} || env.pack.group(NOTES).None? {
      FilterAll(lines, t => !KeyForgotten(env, keys, t));
      CountBound(r, (e: Entry) => OnRecord(e) && KeyForgotten(env, keys, e.content));
    }
  }

  // ---------------------------------------------------------------- which branch

  predicate Refused(env: Env, keys: set<Key>, lines: seq<string>, value: string) {
    KeyForgotten(env, keys, value) || exists t :: t in lines && env.lex.canon(t) == env.lex.canon(value)
  }

  /** A blank note changes nothing; one that is forgotten, or held already, leaves the healing alone. */
  lemma NoteRefused(env: Env, s: Ledger, text: string, stamp: Stamp, keys: set<Key>)
    ensures var value := env.lex.trim(text);
            var (h, count) := RetireForgotten(env, s, keys, stamp.now);
            var result := AddNote(env, s, text, stamp, keys);
            && (value == "" ==> result == NoteResult(s, false, None))
            && (value != "" && Refused(env, keys, Lines(h, NOTES), value) ==> result == NoteResult(h, count > 0, None))
  {
    hide RetireForgotten, RevisedLine, Revise, Accumulate;
  }

  /** The entry a note leaves: its own, written by the caller, at its place. */
  function Written(value: string, stamp: Stamp): Entry {
    Entry(id := stamp.id, content := value, kind := Profile, confidence := 0.9, addedAt := stamp.now,
          evidenceId := stamp.evidenceId, evidenceType := EventSource, facet := Some("notes"), entities := [],
          origin := Some(NoteOrigin), supersededBy := None, retired := None)
  }

  /** The first active note with the text. */
  function FirstWith(lex: Lexicon, r: seq<Entry>, text: string): nat {
    First(r, (e: Entry) => OnRecord(e) && lex.canon(e.content) == lex.canon(text))
  }

  lemma FirstWithIs(lex: Lexicon, r: seq<Entry>, text: string)
    ensures ActiveNoteIndex(lex, r, text) == FirstWith(lex, r, text)
  {
    var i := ActiveNoteIndex(lex, r, text);
    forall j | 0 <= j < i ensures !(OnRecord(r[j]) && lex.canon(r[j].content) == lex.canon(text)) {
      assert !ActiveNote(lex, text, r[j]);
    }
    FirstIs(r, (e: Entry) => OnRecord(e) && lex.canon(e.content) == lex.canon(text), i);
  }

  lemma ReviseIs(lex: Lexicon, h: Ledger, m: nat, value: string, stamp: Stamp)
    requires m < |Lines(h, NOTES)|
    ensures LineTaken(lex, h, m, value, stamp, Revise(lex, h, m, value, stamp))
  {
    hide ActiveNoteIndex, FirstWith;
    FirstWithIs(lex, h.registry, Lines(h, NOTES)[m]);
  }

  /** What a note that takes line `m` over leaves of the healed ledger. */
  ghost predicate LineTaken(lex: Lexicon, h: Ledger, m: nat, value: string, stamp: Stamp, result: NoteResult)
    requires m < |Lines(h, NOTES)|
  {
    var lines, r, r' := Lines(h, NOTES), h.registry, result.state.registry;
    && result.changed && result.superseded == Some(lines[m])
    && Lines(result.state, NOTES) == lines[m := value]
    && (forall f :: f != NOTES ==> Lines(result.state, f) == Lines(h, f))
    && |r'| == |r| + 1 && r'[|r|] == Written(value, stamp)
    && forall i :: 0 <= i < |r| ==>
         r'[i] == if i == FirstWith(lex, r, lines[m]) then r[i].(supersededBy := Some(stamp.id)) else r[i]
  }

  /**
   * A note that revises line `m`, the first it does, takes that line and answers what it said; the
   * first active note with that text is linked to it, and no other entry or facet changes.
   */
  lemma NoteRevises(env: Env, s: Ledger, text: string, stamp: Stamp, keys: set<Key>, m: nat)
    requires env.lex.trim(text) != ""
    requires var lines := Lines(Healed(env, s, keys, stamp.now), NOTES);
             && !Refused(env, keys, lines, env.lex.trim(text))
             && m < |lines| && env.lex.isRevision(lines[m], env.lex.trim(text))
             && forall n :: 0 <= n < m ==> !env.lex.isRevision(lines[n], env.lex.trim(text))
    ensures LineTaken(env.lex, Healed(env, s, keys, stamp.now), m, env.lex.trim(text), stamp, AddNote(env, s, text, stamp, keys))
  {
    hide RetireForgotten, Accumulate, Revise, LineTaken;
    var h := Healed(env, s, keys, stamp.now);
    assert RevisedLine(env.lex, Lines(h, NOTES), env.lex.trim(text)) == m;
    ReviseIs(env.lex, h, m, env.lex.trim(text), stamp);
  }

  // ---------------------------------------------------------------- a slot of its own

  /** The last unlinked note retired as forgotten that the text revises. */
  function LastForgotten(lex: Lexicon, r: seq<Entry>, value: string): nat {
    Last(r, (e: Entry) =>
      && e.retired.Some? && e.retired.value.reason == Forgotten && e.supersededBy.None?
      && e.facet == Some(NOTES) && lex.isRevision(e.content, value))
  }

  /** At the cap the oldest line goes. */
  predicate Overflows(env: Env, lines: seq<string>) {
    lines != [] && env.pack.cap(NOTES) <= |lines|
  }

  /** The entry that goes with the oldest line: the first active one of the notes, or of no facet, with its text. */
  function PushedOutEntry(env: Env, r: seq<Entry>, lines: seq<string>): nat {
    if Overflows(env, lines) && lines[0] != "" then
      First(r, (e: Entry) =>
        && e.supersededBy.None? && e.retired.None? && (e.facet.None? || e.facet == Some(NOTES))
        && env.lex.canon(e.content) == env.lex.canon(lines[0]))
    else |r|
  }

  lemma RoomIs(env: Env, s: Ledger, now: nat)
    ensures var room, lines, r := MakeRoom(env, s, now), Lines(s, NOTES), s.registry;
            && Lines(room, NOTES) == (if Overflows(env, lines) then lines[1..] else lines)
            && (forall f :: f != NOTES ==> Lines(room, f) == Lines(s, f))
            && |room.registry| == |r|
            && forall i :: 0 <= i < |r| ==>
                 room.registry[i] == if i == PushedOutEntry(env, r, lines) then r[i].(retired := Some(Retirement(now, CapEvicted))) else r[i]
  {
    var lines := Lines(s, NOTES);
    if Overflows(env, lines) && lines[0] != "" {
      assert RemoveAt(lines, 0) == lines[1..];
      FirstIs(s.registry, (e: Entry) =>
        && e.supersededBy.None? && e.retired.None? && (e.facet.None? || e.facet == Some(NOTES))
        && env.lex.canon(e.content) == env.lex.canon(lines[0]), RetireTarget(env.lex, s.registry, lines[0], NOTES, true, false));
    }
  }

  /** What a note with a slot of its own leaves of the healed ledger. */
  ghost predicate SlotTaken(env: Env, h: Ledger, value: string, stamp: Stamp, result: NoteResult) {
    var lines, r, r' := Lines(h, NOTES), h.registry, result.state.registry;
    var prior, out := LastForgotten(env.lex, r, value), PushedOutEntry(env, r, lines);
    && result.changed && result.superseded == (if prior < |r| then Some(r[prior].content) else None)
    && Lines(result.state, NOTES) == (if Overflows(env, lines) then lines[1..] else lines) + [value]
    && (forall f :: f != NOTES ==> Lines(result.state, f) == Lines(h, f))
    && |r| <= |r'|
    && r'[|r|..] == (if prior < |r| || NotActive(env.lex, r, value, out) then [Written(value, stamp)] else [])
    && forall i :: 0 <= i < |r| ==>
         r'[i] == if i == out then r[i].(retired := Some(Retirement(stamp.now, CapEvicted)))
                  else if i == prior then r[i].(supersededBy := Some(stamp.id)) else r[i]
  }

  /** No active note has the text, the one at `out` aside. */
  predicate NotActive(lex: Lexicon, r: seq<Entry>, value: string, out: nat) {
    forall i :: 0 <= i < |r| && i != out ==> !(OnRecord(r[i]) && lex.canon(r[i].content) == lex.canon(value))
  }

  lemma PriorIs(lex: Lexicon, r: seq<Entry>, value: string)
    ensures ForgottenPrior(lex, r, value) == LastForgotten(lex, r, value)
  {
    LastIs(r, (e: Entry) =>
      && e.retired.Some? && e.retired.value.reason == Forgotten && e.supersededBy.None?
      && e.facet == Some(NOTES) && lex.isRevision(e.content, value), ForgottenPrior(lex, r, value));
  }

  lemma PushedOutIsActive(env: Env, r: seq<Entry>, lines: seq<string>)
    ensures var out := PushedOutEntry(env, r, lines); out < |r| ==> r[out].supersededBy.None? && r[out].retired.None?
  {
  }

  lemma HeldIs(env: Env, h: Ledger, value: string, now: nat)
    ensures var held, lines, r := Held(env, h, value, now), Lines(h, NOTES), h.registry;
            && Lines(held, NOTES) == (if Overflows(env, lines) then lines[1..] else lines) + [value]
            && (forall f :: f != NOTES ==> Lines(held, f) == Lines(h, f))
            && |held.registry| == |r|
            && forall i :: 0 <= i < |r| ==>
                 held.registry[i] == if i == PushedOutEntry(env, r, lines) then r[i].(retired := Some(Retirement(now, CapEvicted))) else r[i]
  {
    hide MakeRoom, PushedOutEntry, Overflows;
    RoomIs(env, h, now);
  }

  lemma NotActiveIs(env: Env, h: Ledger, value: string, now: nat)
    ensures var held := Held(env, h, value, now).registry;
            ActiveNoteIndex(env.lex, held, value) == |held| <==> NotActive(env.lex, h.registry, value, PushedOutEntry(env, h.registry, Lines(h, NOTES)))
  {
    hide Held, PushedOutEntry, Overflows;
    var r, held := h.registry, Held(env, h, value, now).registry;
    var out := PushedOutEntry(env, r, Lines(h, NOTES));
    HeldIs(env, h, value, now);
    forall i | 0 <= i < |r|
      ensures ActiveNote(env.lex, value, held[i]) <==> i != out && OnRecord(r[i]) && env.lex.canon(r[i].content) == env.lex.canon(value)
    {
    }
  }

  lemma SlotIs(env: Env, h: Ledger, value: string, stamp: Stamp)
    ensures SlotTaken(env, h, value, stamp, Accumulate(env, h, value, stamp))
  {
    hide Held, PushedOutEntry, LastForgotten, ForgottenPrior, Overflows, NotActive, ActiveNoteIndex;
    var r := h.registry;
    HeldIs(env, h, value, stamp.now);
    PriorIs(env.lex, r, value);
    PushedOutIsActive(env, r, Lines(h, NOTES));
    PriorIsRetired(env.lex, r, value);
    NotActiveIs(env, h, value, stamp.now);
  }

  lemma PriorIsRetired(lex: Lexicon, r: seq<Entry>, value: string)
    ensures var prior := ForgottenPrior(lex, r, value); prior <= |r| && (prior < |r| ==> r[prior].retired.Some?)
  {
  }

  /**
   * A note that revises no line takes a slot of its own: the oldest line leaves when the facet is
   * full, and the entry behind it is retired as evicted. The last forgotten version it revises is
   * linked to it and answered; when there is none, nothing is linked and nothing answered, and the
   * note is registered unless an active one has its text.
   */
  lemma NoteTakesSlot(env: Env, s: Ledger, text: string, stamp: Stamp, keys: set<Key>)
    requires env.lex.trim(text) != ""
    requires var lines := Lines(Healed(env, s, keys, stamp.now), NOTES);
             && !Refused(env, keys, lines, env.lex.trim(text))
             && forall n :: 0 <= n < |lines| ==> !env.lex.isRevision(lines[n], env.lex.trim(text))
    ensures SlotTaken(env, Healed(env, s, keys, stamp.now), env.lex.trim(text), stamp, AddNote(env, s, text, stamp, keys))
  {
    hide RetireForgotten, Revise, Accumulate, SlotTaken;
    var value, h := env.lex.trim(text), Healed(env, s, keys, stamp.now);
    assert RevisedLine(env.lex, Lines(h, NOTES), value) == |Lines(h, NOTES)|;
    SlotIs(env, h, value, stamp);
  }
}
