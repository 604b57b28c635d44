/**
 * Whether an active caller's note also holds a line of `profile.notes`: what each write does to it.
 *
 * Evicting a line retires the first active entry with its text, and entries without a facet count
 * too (packages/core/src/digest/fact-registry.ts:80-87); revising a line links the first active note
 * with its text. A note loses its line, and stays active without one, exactly when that line is the
 * only one with its text and another such entry comes before the note.
 */
module NoteLines {
  import opened Options
  import opened Seqs
  import opened FactRegistry
  import opened RegistryLaws

  /** An active caller's note with no line. */
  predicate Lineless(lex: Lexicon, r: seq<Entry>, lines: seq<string>, i: nat) {
    HeldNote(r, i) && !HasLine(lex, lines, r[i].content)
  }

  /** Every active caller's note holds a line. */
  predicate Shown(lex: Lexicon, s: Ledger) {
    forall i :: 0 <= i < |s.registry| ==> !Lineless(lex, s.registry, Lines(s, NOTES), i)
  }

  // ---------------------------------------------------------------- one line leaves

  /** A line other than line `m` has the text. */
  predicate HasOther(lex: Lexicon, lines: seq<string>, m: nat, text: string) {
    exists n :: 0 <= n < |lines| && n != m && lex.canon(lines[n]) == lex.canon(text)
  }

  /** Another line has the text of line `m`. */
  predicate Doubled(lex: Lexicon, lines: seq<string>, m: nat)
    requires m < |lines|
  {
    HasOther(lex, lines, m, lines[m])
  }

  /** Of the texts with a line, those keep one that have a line other than line `m`. */
  ghost predicate OnlyLeaves(lex: Lexicon, lines: seq<string>, lines': seq<string>, m: nat) {
    forall t :: HasLine(lex, lines, t) ==> (HasLine(lex, lines', t) <==> HasOther(lex, lines, m, t))
  }

  lemma RemovalOnlyLeaves(lex: Lexicon, lines: seq<string>, m: nat)
    requires m < |lines|
    ensures OnlyLeaves(lex, lines, RemoveAt(lines, m), m)
  {
    var lines' := RemoveAt(lines, m);
    forall t | HasOther(lex, lines, m, t) ensures HasLine(lex, lines', t) {
      var n :| 0 <= n < |lines| && n != m && lex.canon(lines[n]) == lex.canon(t);
      assert lines'[if n < m then n else n - 1] == lines[n];
    }
    forall t | HasLine(lex, lines', t) ensures HasOther(lex, lines, m, t) {
      var k :| 0 <= k < |lines'| && lex.canon(lines'[k]) == lex.canon(t);
      assert lines[if k < m then k else k + 1] == lines'[k];
    }
  }

  lemma ReplacementOnlyLeaves(lex: Lexicon, lines: seq<string>, m: nat, value: string)
    requires m < |lines| && !HasLine(lex, lines, value)
    ensures OnlyLeaves(lex, lines, lines[m := value], m)
  {
    var lines' := lines[m := value];
    forall t | HasOther(lex, lines, m, t) ensures HasLine(lex, lines', t) {
      var n :| 0 <= n < |lines| && n != m && lex.canon(lines[n]) == lex.canon(t);
      assert lines'[n] == lines[n];
    }
    forall t | HasLine(lex, lines, t) && HasLine(lex, lines', t) ensures HasOther(lex, lines, m, t) {
      var k :| 0 <= k < |lines'| && lex.canon(lines'[k]) == lex.canon(t);
      var u :| u in lines && lex.canon(u) == lex.canon(t);
      assert k != m;
      assert lines[k] == lines'[k];
    }
  }

  /** A shown note that stays active ends without a line exactly when the line that leaves is the only one with its text. */
  lemma NoteLeft(lex: Lexicon, r: seq<Entry>, r': seq<Entry>, lines: seq<string>, lines': seq<string>, m: nat, i: nat)
    requires m < |lines| && OnlyLeaves(lex, lines, lines', m)
    requires HeldNote(r, i) && HasLine(lex, lines, r[i].content)
    requires HeldNote(r', i) && r'[i].content == r[i].content
    ensures Lineless(lex, r', lines', i) <==> !Doubled(lex, lines, m) && lex.canon(r[i].content) == lex.canon(lines[m])
  {
    var text := r[i].content;
    var t :| t in lines && lex.canon(t) == lex.canon(text);
    var n :| 0 <= n < |lines| && lines[n] == t;
    if n != m {
      assert HasOther(lex, lines, m, text);
    }
  }

  /** The entry is one that evicting a line with this text may retire. */
  predicate Evictable(lex: Lexicon, text: string, e: Entry) {
    Active(e) && (e.facet.None? || e.facet == Some(NOTES)) && lex.canon(e.content) == lex.canon(text)
  }

  /** The note at `i` has the text, and an entry that is evicted in its place comes before it. */
  predicate LeftByEviction(lex: Lexicon, r: seq<Entry>, text: string, i: nat) {
    && HeldNote(r, i) && lex.canon(r[i].content) == lex.canon(text)
    && exists j :: 0 <= j < i && Evictable(lex, text, r[j])
  }

  /** The note at `i` has the text, and a note that is revised in its place comes before it. */
  predicate LeftByRevision(lex: Lexicon, r: seq<Entry>, text: string, i: nat) {
    && HeldNote(r, i) && lex.canon(r[i].content) == lex.canon(text)
    && exists j :: 0 <= j < i && ActiveNote(lex, text, r[j])
  }

  /** Evicting line `m` leaves a note without one. */
  ghost predicate EvictionDisplaces(lex: Lexicon, s: Ledger, m: nat)
    requires m < |Lines(s, NOTES)|
  {
    var lines := Lines(s, NOTES);
    !Doubled(lex, lines, m) && exists i :: 0 <= i < |s.registry| && LeftByEviction(lex, s.registry, lines[m], i)
  }

  lemma EvictionLeaves(lex: Lexicon, s: Ledger, m: nat, now: nat, i: nat)
    requires m < |Lines(s, NOTES)| && HeldNote(s.registry, i) && lex.canon(s.registry[i].content) == lex.canon(Lines(s, NOTES)[m])
    ensures var r' := EvictNote(lex, s, m, now).registry;
            HeldNote(r', i) <==> LeftByEviction(lex, s.registry, Lines(s, NOTES)[m], i)
  {
    hide Doubled, HasOther, RemoveAt, IsCallerNote;
    var r, line := s.registry, Lines(s, NOTES)[m];
    var target := RetireTarget(lex, r, line, NOTES, true, false);
    var r' := EvictNote(lex, s, m, now).registry;
    assert forall e :: Retirable(lex, r, line, NOTES, true, false, e) <==> Evictable(lex, line, e);
    assert Evictable(lex, line, r[i]);
    assert r' == Retire(r, target, now, CapEvicted);
    EvictionParts(lex, s, m, now);
    if target != i { HeldStable(r, r', {}, i); }
  }

  lemma EvictionParts(lex: Lexicon, s: Ledger, m: nat, now: nat)
    requires m < |Lines(s, NOTES)|
    ensures var s' := EvictNote(lex, s, m, now);
            && Lines(s', NOTES) == RemoveAt(Lines(s, NOTES), m)
            && |s'.registry| == |s.registry| && Grows(s.registry, s'.registry, {})
  {
  }

  /** Evicting a line keeps every note shown if and only if it leaves none without one. */
  lemma EvictionShownIff(lex: Lexicon, s: Ledger, m: nat, now: nat)
    requires m < |Lines(s, NOTES)| && Shown(lex, s)
    ensures Shown(lex, EvictNote(lex, s, m, now)) <==> !EvictionDisplaces(lex, s, m)
  {
    hide EvictNote, Lines, RemoveAt, Doubled, OnlyLeaves, HasLine, LeftByEviction, Grows;
    var r, lines := s.registry, Lines(s, NOTES);
    var s' := EvictNote(lex, s, m, now);
    EvictionParts(lex, s, m, now);
    RemovalOnlyLeaves(lex, lines, m);
    forall i | 0 <= i < |r|
      ensures Lineless(lex, s'.registry, Lines(s', NOTES), i) <==> !Doubled(lex, lines, m) && LeftByEviction(lex, r, lines[m], i)
    {
      EvictionLeft(lex, s, m, now, i);
    }
  }

  lemma EvictionLeft(lex: Lexicon, s: Ledger, m: nat, now: nat, i: nat)
    requires m < |Lines(s, NOTES)| && i < |s.registry| && !Lineless(lex, s.registry, Lines(s, NOTES), i)
    ensures var s' := EvictNote(lex, s, m, now);
            Lineless(lex, s'.registry, Lines(s', NOTES), i) <==>
              (!Doubled(lex, Lines(s, NOTES), m) && LeftByEviction(lex, s.registry, Lines(s, NOTES)[m], i))
  {
    hide EvictNote, Lines, RemoveAt, Doubled, OnlyLeaves, HasLine, Grows;
    var r, lines := s.registry, Lines(s, NOTES);
    var s' := EvictNote(lex, s, m, now);
    EvictionParts(lex, s, m, now);
    RemovalOnlyLeaves(lex, lines, m);
    if HeldNote(s'.registry, i) { HeldBefore(r, s'.registry, {}, i); }
    if HeldNote(r, i) && lex.canon(r[i].content) == lex.canon(lines[m]) { EvictionLeaves(lex, s, m, now, i); }
    if HeldNote(s'.registry, i) { NoteLeft(lex, r, s'.registry, lines, Lines(s', NOTES), m, i); }
  }

  // ---------------------------------------------------------------- writing a note

  /** Revising line `m` leaves a note without one. */
  ghost predicate RevisionDisplaces(lex: Lexicon, s: Ledger, m: nat)
    requires m < |Lines(s, NOTES)|
  {
    var lines := Lines(s, NOTES);
    !Doubled(lex, lines, m) && exists i :: 0 <= i < |s.registry| && LeftByRevision(lex, s.registry, lines[m], i)
  }

  lemma RevisionParts(lex: Lexicon, s: Ledger, m: nat, value: string, stamp: Stamp)
    requires m < |Lines(s, NOTES)|
    ensures var s' := Revise(lex, s, m, value, stamp).state;
            var prior := ActiveNoteIndex(lex, s.registry, Lines(s, NOTES)[m]);
            && Lines(s', NOTES) == Lines(s, NOTES)[m := value]
            && |s'.registry| == |s.registry| + 1 && s'.registry[|s.registry|] == NoteEntry(value, stamp)
            && forall i :: 0 <= i < |s.registry| ==>
                 s'.registry[i] == if i == prior then s.registry[i].(supersededBy := Some(stamp.id)) else s.registry[i]
  {
  }

  lemma RevisionLeft(lex: Lexicon, s: Ledger, m: nat, value: string, stamp: Stamp, i: nat)
    requires m < |Lines(s, NOTES)| && i < |s.registry| && !Lineless(lex, s.registry, Lines(s, NOTES), i)
    requires !HasLine(lex, Lines(s, NOTES), value) && stamp.id !in Ids(s.registry)
    ensures var s' := Revise(lex, s, m, value, stamp).state;
            && i < |s'.registry|
            && (Lineless(lex, s'.registry, Lines(s', NOTES), i) <==>
                  (!Doubled(lex, Lines(s, NOTES), m) && LeftByRevision(lex, s.registry, Lines(s, NOTES)[m], i)))
  {
    hide Revise, Lines, Doubled, OnlyLeaves, HasLine, IsCallerNote, Grows;
    var r, lines := s.registry, Lines(s, NOTES);
    var s' := Revise(lex, s, m, value, stamp).state;
    var prior := ActiveNoteIndex(lex, r, lines[m]);
    RevisionParts(lex, s, m, value, stamp);
    ReplacementOnlyLeaves(lex, lines, m, value);
    ReviseGrows(lex, s, m, value, stamp);
    assert r[i] in r && r[i].id in Ids(r);
    if i != prior { HeldStable(r, s'.registry, {stamp.id}, i); }
    if HeldNote(s'.registry, i) {
      NoteLeft(lex, r, s'.registry, lines, Lines(s', NOTES), m, i);
      if lex.canon(r[i].content) == lex.canon(lines[m]) { assert ActiveNote(lex, lines[m], r[i]); }
    }
  }

  /** Revising a line keeps every note shown if and only if it leaves none without one. */
  lemma RevisionShownIff(lex: Lexicon, s: Ledger, m: nat, value: string, stamp: Stamp)
    requires m < |Lines(s, NOTES)| && Shown(lex, s) && !HasLine(lex, Lines(s, NOTES), value) && stamp.id !in Ids(s.registry)
    ensures Shown(lex, Revise(lex, s, m, value, stamp).state) <==> !RevisionDisplaces(lex, s, m)
  {
    hide Revise, Lines, Doubled, LeftByRevision;
    var r, lines := s.registry, Lines(s, NOTES);
    var s' := Revise(lex, s, m, value, stamp).state;
    RevisionParts(lex, s, m, value, stamp);
    assert lines[m := value][m] in lines[m := value];
    assert !Lineless(lex, s'.registry, Lines(s', NOTES), |r|);
    forall i | 0 <= i < |r|
      ensures Lineless(lex, s'.registry, Lines(s', NOTES), i) <==> !Doubled(lex, lines, m) && LeftByRevision(lex, r, lines[m], i)
    {
      RevisionLeft(lex, s, m, value, stamp, i);
    }
  }

  /** Making room for one more note leaves a note without a line; a blank line leaves without retiring anything. */
  ghost predicate RoomDisplaces(env: Env, s: Ledger) {
    var lines := Lines(s, NOTES);
    && |lines| >= env.pack.cap(NOTES) && lines != []
    && if lines[0] == "" then
         && !Doubled(env.lex, lines, 0)
         && exists i :: 0 <= i < |s.registry| && HeldNote(s.registry, i) && env.lex.canon(s.registry[i].content) == env.lex.canon("")
       else EvictionDisplaces(env.lex, s, 0)
  }

  lemma BlankShownIff(lex: Lexicon, s: Ledger)
    requires Lines(s, NOTES) != [] && Lines(s, NOTES)[0] == "" && Shown(lex, s)
    ensures Shown(lex, SetLines(s, NOTES, Lines(s, NOTES)[1..])) <==>
      (Doubled(lex, Lines(s, NOTES), 0)
       || forall i :: 0 <= i < |s.registry| && HeldNote(s.registry, i) ==> lex.canon(s.registry[i].content) != lex.canon(""))
  {
    hide Doubled, OnlyLeaves;
    var r, lines := s.registry, Lines(s, NOTES);
    var s' := SetLines(s, NOTES, lines[1..]);
    assert RemoveAt(lines, 0) == lines[1..];
    RemovalOnlyLeaves(lex, lines, 0);
    forall i | 0 <= i < |r| && HeldNote(r, i)
      ensures Lineless(lex, s'.registry, Lines(s', NOTES), i) <==> !Doubled(lex, lines, 0) && lex.canon(r[i].content) == lex.canon("")
    {
      assert !Lineless(lex, r, lines, i);
      NoteLeft(lex, r, r, lines, lines[1..], 0, i);
    }
  }

  lemma RoomShownIff(env: Env, s: Ledger, now: nat)
    requires Shown(env.lex, s)
    ensures Shown(env.lex, MakeRoom(env, s, now)) <==> !RoomDisplaces(env, s)
  {
    hide EvictNote, Shown, Doubled, EvictionDisplaces;
    var lines := Lines(s, NOTES);
    if |lines| >= env.pack.cap(NOTES) && lines != [] {
      if lines[0] == "" { BlankShownIff(env.lex, s); } else { EvictionShownIff(env.lex, s, 0, now); }
    }
  }

  /** The entries after the note is in, against the entries once room is made: none became active, one note may be new. */
  lemma AccumulationParts(env: Env, s: Ledger, value: string, stamp: Stamp)
    requires stamp.id !in Ids(s.registry)
    ensures var room := MakeRoom(env, s, stamp.now);
            var s' := Accumulate(env, s, value, stamp).state;
            && Lines(s', NOTES) == Lines(room, NOTES) + [value]
            && |room.registry| <= |s'.registry| <= |room.registry| + 1
            && (forall i :: 0 <= i < |room.registry| ==>
                  s'.registry[i].content == room.registry[i].content && (HeldNote(s'.registry, i) <==> HeldNote(room.registry, i)))
            && (forall i :: |room.registry| <= i < |s'.registry| ==> s'.registry[i].content == value)
  {
    hide MakeRoom, ActiveNoteIndex, IsCallerNote;
    var prior := ForgottenPrior(env.lex, s.registry, value);
    var room := MakeRoom(env, s, stamp.now);
    var r' := Accumulate(env, s, value, stamp).state.registry;
    MakeRoomGrows(env, s, stamp.now);
    RegistersOne(room, value, stamp, if prior < |s.registry| then prior else |room.registry|);
    if prior < |s.registry| {
      assert Evolves(s.registry[prior], room.registry[prior]);
    }
    forall i | 0 <= i < |room.registry| && i != prior ensures HeldNote(r', i) <==> HeldNote(room.registry, i) {
      assert Evolves(s.registry[i], room.registry[i]) && s.registry[i] in s.registry;
      if r' != room.registry { HeldAfterRegister(room, value, stamp, if prior < |s.registry| then prior else |room.registry|, i); }
    }
  }

  lemma RegistersOne(s: Ledger, value: string, stamp: Stamp, prior: nat)
    ensures var r' := Register(s, value, stamp, prior).registry;
            && |r'| == |s.registry| + 1 && r'[|s.registry|].content == value
            && forall i :: 0 <= i < |s.registry| ==> r'[i].content == s.registry[i].content && (i != prior ==> r'[i] == s.registry[i])
  {
  }

  /** Registering a note does not change which other entries are callers' notes. */
  lemma HeldAfterRegister(s: Ledger, value: string, stamp: Stamp, prior: nat, i: nat)
    requires i < |s.registry| && i != prior && s.registry[i].id != stamp.id
    requires prior < |s.registry| ==> s.registry[prior].supersededBy.None?
    ensures HeldNote(Register(s, value, stamp, prior).registry, i) <==> HeldNote(s.registry, i)
  {
    hide IsCallerNote;
    var r, r' := s.registry, Register(s, value, stamp, prior).registry;
    PointersOfRegister(s, value, stamp, prior, r[i]);
  }

  /** A link to a new id, whatever it replaces, points at no other entry. */
  lemma PointersOfRegister(s: Ledger, value: string, stamp: Stamp, prior: nat, e: Entry)
    requires e.id != stamp.id && (prior < |s.registry| ==> s.registry[prior].supersededBy.None?)
    ensures IsCallerNote(e, Register(s, value, stamp, prior).registry) == IsCallerNote(e, s.registry)
  {
    RegisterGrows(s, value, stamp, prior);
    CallerStable(s.registry, Register(s, value, stamp, prior).registry, {stamp.id}, e);
  }

  /** Writing a note into a slot of its own keeps every note shown if and only if making room does. */
  lemma AccumulationShownIff(env: Env, s: Ledger, value: string, stamp: Stamp)
    requires Shown(env.lex, s) && !HasLine(env.lex, Lines(s, NOTES), value) && stamp.id !in Ids(s.registry)
    ensures Shown(env.lex, Accumulate(env, s, value, stamp).state) <==> !RoomDisplaces(env, s)
  {
    hide MakeRoom, Accumulate, Lines, RoomDisplaces;
    var lex := env.lex;
    var room := MakeRoom(env, s, stamp.now);
    var s' := Accumulate(env, s, value, stamp).state;
    RoomShownIff(env, s, stamp.now);
    AccumulationParts(env, s, value, stamp);
    assert value in Lines(s', NOTES);
    forall i | 0 <= i < |room.registry|
      ensures Lineless(lex, s'.registry, Lines(s', NOTES), i) <==> Lineless(lex, room.registry, Lines(room, NOTES), i)
    {
      AccumulationLeft(env, s, value, stamp, i);
    }
  }

  lemma AccumulationLeft(env: Env, s: Ledger, value: string, stamp: Stamp, i: nat)
    requires Shown(env.lex, s) && !HasLine(env.lex, Lines(s, NOTES), value) && stamp.id !in Ids(s.registry)
    requires i < |MakeRoom(env, s, stamp.now).registry|
    ensures var room := MakeRoom(env, s, stamp.now);
            var s' := Accumulate(env, s, value, stamp).state;
            Lineless(env.lex, s'.registry, Lines(s', NOTES), i) <==> Lineless(env.lex, room.registry, Lines(room, NOTES), i)
  {
    hide MakeRoom, Accumulate, Lines;
    var lex := env.lex;
    var room := MakeRoom(env, s, stamp.now);
    var lines := Lines(room, NOTES);
    AccumulationParts(env, s, value, stamp);
    MakeRoomGrows(env, s, stamp.now);
    if HeldNote(room.registry, i) {
      HeldBefore(s.registry, room.registry, {}, i);
      var text := room.registry[i].content;
      assert !Lineless(lex, s.registry, Lines(s, NOTES), i);
      var u :| u in Lines(s, NOTES) && lex.canon(u) == lex.canon(text);
      assert lex.canon(value) != lex.canon(text);
      assert HasLine(lex, lines + [value], text) <==> HasLine(lex, lines, text);
    }
  }

  lemma ForgettingKeepsShown(env: Env, s: Ledger, keys: set<Key>, now: nat)
    requires Shown(env.lex, s)
    ensures Shown(env.lex, RetireForgotten(env, s, keys, now).0)
  {
    var s' := RetireForgotten(env, s, keys, now).0;
    RetireForgottenGrows(env, s, keys, now);
    forall i | 0 <= i < |s'.registry| && HeldNote(s'.registry, i) ensures HasLine(env.lex, Lines(s', NOTES), s'.registry[i].content) {
      HeldBefore(s.registry, s'.registry, {}, i);
      assert !Lineless(env.lex, s.registry, Lines(s, NOTES), i);
      var t :| t in Lines(s, NOTES) && env.lex.canon(t) == env.lex.canon(s.registry[i].content);
      assert t in Lines(s', NOTES);
    }
  }

  lemma ForgettingKeepsIds(env: Env, s: Ledger, keys: set<Key>, now: nat)
    ensures Ids(RetireForgotten(env, s, keys, now).0.registry) <= Ids(s.registry)
  {
    RetireForgottenGrows(env, s, keys, now);
    forall e | e in RetireForgotten(env, s, keys, now).0.registry ensures e.id in Ids(s.registry) {
      var i :| 0 <= i < |s.registry| && RetireForgotten(env, s, keys, now).0.registry[i] == e;
      assert Evolves(s.registry[i], e) && s.registry[i] in s.registry;
    }
  }

  /** Writing `text` as a note leaves another note without a line: by the line it revises, or by the one it pushes out. */
  ghost predicate NoteDisplaces(env: Env, s: Ledger, text: string, keys: set<Key>, now: nat) {
    var value := env.lex.trim(text);
    var healed := RetireForgotten(env, s, keys, now).0;
    var lines := Lines(healed, NOTES);
    && value != "" && !NoteForgotten(env, keys, value) && !HasLine(env.lex, lines, value)
    && var m := RevisedLine(env.lex, lines, value);
       if m < |lines| then RevisionDisplaces(env.lex, healed, m) else RoomDisplaces(env, healed)
  }

  /** Writing a note keeps every caller's note shown if and only if it displaces none. */
  lemma NoteShownIff(env: Env, s: Ledger, text: string, stamp: Stamp, keys: set<Key>)
    requires Shown(env.lex, s) && stamp.id !in Ids(s.registry)
    ensures Shown(env.lex, AddNote(env, s, text, stamp, keys).state) <==> !NoteDisplaces(env, s, text, keys, stamp.now)
  {
    hide RetireForgotten, Revise, Accumulate, Shown, RevisionDisplaces, RoomDisplaces, HasLine;
    var value := env.lex.trim(text);
    if value != "" {
      var healed := RetireForgotten(env, s, keys, stamp.now).0;
      var lines := Lines(healed, NOTES);
      ForgettingKeepsShown(env, s, keys, stamp.now);
      ForgettingKeepsIds(env, s, keys, stamp.now);
      if !NoteForgotten(env, keys, value) && !HasLine(env.lex, lines, value) {
        var m := RevisedLine(env.lex, lines, value);
        if m < |lines| { RevisionShownIff(env.lex, healed, m, value, stamp); }
        else { AccumulationShownIff(env, healed, value, stamp); }
      }
    }
  }

  /** A decision with the text of a note, stored without a facet before it. */
  function Shadowed(decision: Entry, note: Stamp, text: string): Ledger {
    Ledger([decision, NoteEntry(text, note)], map[NOTES := [text]])
  }

  lemma ShadowedEviction(lex: Lexicon, decision: Entry, note: Stamp, text: string, now: nat)
    requires Active(decision) && decision.facet.None? && decision.content == text
    ensures var s := Shadowed(decision, note, text);
            && Shown(lex, s) && EvictionDisplaces(lex, s, 0)
            && EvictNote(lex, s, 0, now) == Ledger([decision.(retired := Some(Retirement(now, CapEvicted))), NoteEntry(text, note)], map[NOTES := []])
  {
    var s := Shadowed(decision, note, text);
    assert Lines(s, NOTES) == [text] && text in Lines(s, NOTES);
    assert Evictable(lex, text, s.registry[0]);
    assert LeftByEviction(lex, s.registry, text, 1);
    assert RemoveAt([text], 0) == [];
  }

  /**
   * It can happen: a decision with the text of a caller's note, stored without a facet before it,
   * is retired in the note's place when the cap evicts the note's line, and the note stays active
   * with no line.
   */
  lemma FacetlessEntryIsRetiredInstead(env: Env, decision: Entry, note: Stamp, text: string, line: string, stamp: Stamp)
    requires Active(decision) && decision.facet.None? && decision.content == text
    requires env.pack.cap(NOTES) == 1 && text != "" && env.lex.trim(line) != ""
    requires env.lex.canon(env.lex.trim(line)) != env.lex.canon(text) && !env.lex.isRevision(text, env.lex.trim(line))
    ensures var s := Shadowed(decision, note, text);
            var s' := AddNote(env, s, line, stamp, {}).state;
            && Shown(env.lex, s) && NoteDisplaces(env, s, line, {}, stamp.now)
            && !Active(s'.registry[0]) && Lineless(env.lex, s'.registry, Lines(s', NOTES), 1)
  {
    hide Shown, EvictionDisplaces, EvictNote, ForgottenPrior, ActiveNoteIndex;
    var s := Shadowed(decision, note, text);
    var value := env.lex.trim(line);
    assert Lines(s, NOTES) == [text];
    ShadowedEviction(env.lex, decision, note, text, stamp.now);
    assert Lines(Held(env, s, value, stamp.now), NOTES) == [value];
    assert AddNote(env, s, line, stamp, {}) == Accumulate(env, s, value, stamp);
    NothingIsPrior(env.lex, s.registry, value);
  }

  /** No entry of these was retired as forgotten. */
  lemma NothingIsPrior(lex: Lexicon, r: seq<Entry>, value: string)
    requires forall i :: 0 <= i < |r| ==> Active(r[i])
    ensures ForgottenPrior(lex, r, value) == |r|
  {
  }
}
