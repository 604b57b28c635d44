/**
 * Which notes a digest's commit leaves without a line (packages/core/src/handoff.ts:157-194), said of
 * the two ledgers it joins: the digest's copy and the latest registry.
 */
module CommitLines {
  import opened Options
  import opened Seqs
  import opened FactRegistry
  import opened RegistryLaws
  import opened Handoff
  import opened HandoffLaws
  import opened NoteLines
  import opened CapLines

  // ---------------------------------------------------------------- what the two ledgers say

  /** Entries the digest knows come before the active ones it does not: notes are appended. */
  predicate Ordered(s: seq<Entry>, p: seq<Entry>) {
    forall i, j :: 0 <= i < |s| && 0 <= j < |s| && Active(s[i]) && s[i].id !in Ids(p) && s[j].id in Ids(p) ==> j < i
  }

  /** Entries of one id have one text. */
  predicate SameTexts(s: seq<Entry>, p: seq<Entry>) {
    forall i, j :: 0 <= i < |s| && 0 <= j < |p| && s[i].id == p[j].id ==> s[i].content == p[j].content
  }

  predicate ActiveIn(p: seq<Entry>, id: Id) {
    exists k :: 0 <= k < |p| && p[k].id == id && Active(p[k])
  }

  /** The latest registry holds, as no longer active, a note the digest holds active. */
  predicate Overtaken(p: seq<Entry>, theirs: Entry) {
    theirs.facet == Some(NOTES) && !Active(theirs) && ActiveIn(p, theirs.id)
  }

  function Overtakings(p: seq<Entry>, latest: seq<Entry>): seq<Entry> {
    Filter(latest, e => Overtaken(p, e))
  }

  /** The active notes the digest never saw. */
  function Arrivals(env: Env, p: seq<Entry>, latest: seq<Entry>, keys: set<Key>): seq<Entry> {
    Filter(latest, e => Active(e) && Adoptable(env, Ids(p), keys, e))
  }

  /** The lines less one for each of the notes. */
  function LinesLess(lex: Lexicon, lines: seq<string>, notes: seq<Entry>): seq<string> {
    if notes == [] then lines
    else WithoutLine(lex, LinesLess(lex, lines, notes[..|notes| - 1]), notes[|notes| - 1].content)
  }

  /** The lines and after them those of the notes that are not among them. */
  function LinesWith(lines: seq<string>, notes: seq<Entry>): seq<string> {
    if notes == [] then lines
    else
      var before := LinesWith(lines, notes[..|notes| - 1]);
      var text := notes[|notes| - 1].content;
      if text in before then before else before + [text]
  }

  /** The lines once the two ledgers are joined: the digest's, less the overtaken notes, with the arrivals. */
  function JoinedLines(env: Env, p: Ledger, latest: seq<Entry>, keys: set<Key>): seq<string> {
    LinesWith(LinesLess(env.lex, Lines(p, NOTES), Overtakings(p.registry, latest)), Arrivals(env, p.registry, latest, keys))
  }

  /** The entries once the two ledgers are joined: the digest's, settled, and those it never saw. */
  function JoinedEntries(env: Env, p: seq<Entry>, latest: seq<Entry>, keys: set<Key>): seq<Entry> {
    seq(|p|, j requires 0 <= j < |p| => Settle(p[j], latest)) + Adopted(env, Ids(p), keys, latest)
  }

  /** How many of the notes have the text. */
  function NotesOf(lex: Lexicon, notes: seq<Entry>, text: string): nat {
    Count(notes, (e: Entry) => lex.canon(e.content) == lex.canon(text))
  }

  /** The note at `i` loses its last line to overtaken notes with its text, and no arrival brings one. */
  predicate JoinLoses(env: Env, p: Ledger, latest: seq<Entry>, keys: set<Key>, i: nat) {
    && i < |p.registry|
    && HeldNote(JoinedEntries(env, p.registry, latest, keys), i)
    && LinesOf(env.lex, Lines(p, NOTES), p.registry[i].content) <= NotesOf(env.lex, Overtakings(p.registry, latest), p.registry[i].content)
    && NotesOf(env.lex, Arrivals(env, p.registry, latest, keys), p.registry[i].content) == 0
  }

  /** The commit leaves the note at `i` active and without a line. */
  predicate CommitLoses(env: Env, p: Ledger, latest: seq<Entry>, keys: set<Key>, now: nat, i: nat) {
    var r := StampAll(env, keys, now, JoinedEntries(env, p.registry, latest, keys));
    && HeldNote(r, i)
    && (JoinLoses(env, p, latest, keys, i)
        || PushedOut(env.lex, env.pack.cap(NOTES), r, KeptNotes(env, keys, JoinedLines(env, p, latest, keys)), i))
  }

  // ---------------------------------------------------------------- the walk computes the join

  lemma CarriedEntries(env: Env, p: Ledger, latest: seq<Entry>, keys: set<Key>)
    requires UniqueIds(p.registry)
    ensures CarryAll(env, p, latest, keys).registry == JoinedEntries(env, p.registry, latest, keys)
  {
    hide CarryAll, Settle, Adopted;
    var c := CarryAll(env, p, latest, keys).registry;
    CarriedRegistry(env, p, latest, keys);
    assert c == c[..|p.registry|] + c[|p.registry|..];
  }

  /** An entry the walk has not come to yet is as the digest holds it. */
  lemma CarryLookup(env: Env, p: Ledger, latest: seq<Entry>, keys: set<Key>, n: nat)
    requires UniqueIds(p.registry) && UniqueIds(latest) && n < |latest|
    ensures var r := CarryAll(env, p, latest[..n], keys).registry;
            var i := ById(r[..|p.registry|], latest[n].id);
            && (i < |p.registry| ==> p.registry[i].id == latest[n].id && r[i] == p.registry[i])
            && (i < |p.registry| <==> latest[n].id in Ids(p.registry))
  {
    hide CarryAll, Settle, Adopted;
    var before, own := latest[..n], |p.registry|;
    var r := CarryAll(env, p, before, keys).registry;
    CarriedRegistry(env, p, before, keys);
    forall j | 0 <= j < own ensures r[..own][j].id == p.registry[j].id && p.registry[j].id in Ids(p.registry) {
      SettleEvolves(p.registry[j], before);
      assert p.registry[j] in p.registry;
    }
    var i := ById(r[..own], latest[n].id);
    if i < own {
      forall x | 0 <= x < n ensures before[x].id != latest[n].id { assert before[x] == latest[x]; }
      SettleKeeps(p.registry[i], before);
    }
  }

  lemma OvertakenIs(p: seq<Entry>, theirs: Entry, i: nat)
    requires UniqueIds(p) && i < |p| && p[i].id == theirs.id && theirs.facet == Some(NOTES)
    ensures Overtaken(p, theirs) <==> !Active(theirs) && Active(p[i])
  {
    forall k | 0 <= k < |p| && k != i ensures p[k].id != theirs.id {
      assert p[if k < i then k else i].id != p[if k < i then i else k].id;
    }
  }

  lemma OvertakenIsKnown(p: seq<Entry>, theirs: Entry)
    ensures Overtaken(p, theirs) ==> theirs.id in Ids(p) && theirs.facet == Some(NOTES) && !Active(theirs)
  {
    forall k | 0 <= k < |p| ensures p[k].id in Ids(p) {
      assert p[k] in p;
    }
  }

  /** Nothing arrived before an entry the digest knows. */
  lemma NoArrivalYet(env: Env, p: seq<Entry>, latest: seq<Entry>, keys: set<Key>, n: nat)
    requires Ordered(latest, p) && n < |latest| && latest[n].id in Ids(p)
    ensures Arrivals(env, p, latest[..n], keys) == []
  {
    hide Ids;
    forall e | e in latest[..n] ensures !(Active(e) && Adoptable(env, Ids(p), keys, e)) {
      var x :| 0 <= x < n && latest[x] == e;
    }
    FilterNone(latest[..n], e => Active(e) && Adoptable(env, Ids(p), keys, e));
  }

  lemma OvertakingsMore(p: seq<Entry>, latest: seq<Entry>, n: nat)
    requires n < |latest|
    ensures Overtakings(p, latest[..n + 1]) == Overtakings(p, latest[..n]) + if Overtaken(p, latest[n]) then [latest[n]] else []
  {
    hide Overtaken;
    PrefixStep(latest, n);
  }

  lemma ArrivalsMore(env: Env, p: seq<Entry>, latest: seq<Entry>, keys: set<Key>, n: nat)
    requires n < |latest|
    ensures Arrivals(env, p, latest[..n + 1], keys)
         == Arrivals(env, p, latest[..n], keys) + if Active(latest[n]) && Adoptable(env, Ids(p), keys, latest[n]) then [latest[n]] else []
  {
    hide Adoptable, Ids;
    PrefixStep(latest, n);
  }

  lemma LessMore(lex: Lexicon, lines: seq<string>, notes: seq<Entry>, e: Entry)
    ensures LinesLess(lex, lines, notes + [e]) == WithoutLine(lex, LinesLess(lex, lines, notes), e.content)
  {
    hide WithoutLine;
    assert (notes + [e])[..|notes|] == notes;
  }

  lemma WithMore(lines: seq<string>, notes: seq<Entry>, e: Entry)
    ensures LinesWith(lines, notes + [e])
         == if e.content in LinesWith(lines, notes) then LinesWith(lines, notes) else LinesWith(lines, notes) + [e.content]
  {
    assert (notes + [e])[..|notes|] == notes;
  }

  lemma CarryMore(env: Env, p: Ledger, latest: seq<Entry>, keys: set<Key>, n: nat)
    requires n < |latest|
    ensures CarryAll(env, p, latest[..n + 1], keys) == CarryStep(env, CarryAll(env, p, latest[..n], keys), |p.registry|, latest[n], keys)
  {
    hide CarryStep;
    PrefixStep(latest, n);
  }

  /** What one entry of the latest registry does to the lines. */
  lemma CarriedLineStep(env: Env, p: Ledger, latest: seq<Entry>, keys: set<Key>, n: nat)
    requires UniqueIds(p.registry) && UniqueIds(latest) && SameTexts(latest, p.registry) && n < |latest|
    ensures var before := Lines(CarryAll(env, p, latest[..n], keys), NOTES);
            Lines(CarryAll(env, p, latest[..n + 1], keys), NOTES) ==
              if Overtaken(p.registry, latest[n]) then WithoutLine(env.lex, before, latest[n].content)
              else if Active(latest[n]) && Adoptable(env, Ids(p.registry), keys, latest[n]) && latest[n].content !in before then before + [latest[n].content]
              else before
  {
    hide CarryAll, WithoutLine, Overtaken, Ids;
    var theirs := latest[n];
    var s := CarryAll(env, p, latest[..n], keys);
    CarryMore(env, p, latest, keys, n);
    CarryLookup(env, p, latest, keys, n);
    var i := ById(s.registry[..|p.registry|], theirs.id);
    OvertakenIsKnown(p.registry, theirs);
    if theirs.facet == Some(NOTES) && i < |p.registry| { OvertakenIs(p.registry, theirs, i); }
  }

  /** The walk leaves the joined lines. */
  lemma {:induction false} CarriedLines(env: Env, p: Ledger, latest: seq<Entry>, keys: set<Key>, n: nat)
    requires UniqueIds(p.registry) && UniqueIds(latest) && SameTexts(latest, p.registry) && Ordered(latest, p.registry) && n <= |latest|
    ensures Lines(CarryAll(env, p, latest[..n], keys), NOTES) == JoinedLines(env, p, latest[..n], keys)
  {
    hide CarryAll, Overtaken, JoinedLines, WithoutLine, Adoptable, Ids;
    if n == 0 {
      NothingJoined(env, p, keys);
      assert latest[..0] == [];
    } else {
      var k := n - 1;
      CarriedLines(env, p, latest, keys, k);
      CarriedLineStep(env, p, latest, keys, k);
      OvertakenIsKnown(p.registry, latest[k]);
      JoinedMore(env, p, latest, keys, k);
    }
  }

  lemma JoinedMore(env: Env, p: Ledger, latest: seq<Entry>, keys: set<Key>, n: nat)
    requires Ordered(latest, p.registry) && n < |latest|
    ensures var before := JoinedLines(env, p, latest[..n], keys);
            JoinedLines(env, p, latest[..n + 1], keys) ==
              if Overtaken(p.registry, latest[n]) then WithoutLine(env.lex, before, latest[n].content)
              else if Active(latest[n]) && Adoptable(env, Ids(p.registry), keys, latest[n]) && latest[n].content !in before then before + [latest[n].content]
              else before
  {
    hide Overtaken, Overtakings, Arrivals, WithoutLine, Adoptable, LinesLess, LinesWith, Ids, Ordered, Lines;
    var gone, more := Overtakings(p.registry, latest[..n]), Arrivals(env, p.registry, latest[..n], keys);
    var left := LinesLess(env.lex, Lines(p, NOTES), gone);
    OvertakingsMore(p.registry, latest, n);
    ArrivalsMore(env, p.registry, latest, keys, n);
    OvertakenIsKnown(p.registry, latest[n]);
    if Overtaken(p.registry, latest[n]) {
      LessMore(env.lex, Lines(p, NOTES), gone, latest[n]);
      NoArrivalYet(env, p.registry, latest, keys, n);
      WithNone(left);
      WithNone(WithoutLine(env.lex, left, latest[n].content));
      assert more + [] == more;
    } else {
      assert gone + [] == gone;
      assert more + [] == more;
      WithMore(left, more, latest[n]);
    }
  }

  lemma WithNone(lines: seq<string>)
    ensures LinesWith(lines, []) == lines
  {
  }

  lemma NothingJoined(env: Env, p: Ledger, keys: set<Key>)
    ensures CarryAll(env, p, [], keys) == p && JoinedLines(env, p, [], keys) == Lines(p, NOTES)
  {
  }

  // ---------------------------------------------------------------- what the join loses

  lemma {:induction false} LessLinesOf(lex: Lexicon, lines: seq<string>, notes: seq<Entry>, text: string)
    ensures LinesOf(lex, LinesLess(lex, lines, notes), text) ==
      if LinesOf(lex, lines, text) <= NotesOf(lex, notes, text) then 0 else LinesOf(lex, lines, text) - NotesOf(lex, notes, text)
  {
    hide LinesOf, WithoutLine;
    if notes != [] {
      var n := |notes| - 1;
      LessLinesOf(lex, lines, notes[..n], text);
      WithoutLineOf(lex, LinesLess(lex, lines, notes[..n]), notes[n].content, text);
    }
  }

  lemma WithoutLineOf(lex: Lexicon, lines: seq<string>, gone: string, text: string)
    ensures LinesOf(lex, WithoutLine(lex, lines, gone), text) ==
      if lex.canon(gone) == lex.canon(text) && LinesOf(lex, lines, text) > 0 then LinesOf(lex, lines, text) - 1 else LinesOf(lex, lines, text)
  {
    hide LinesOf, RemoveAt;
    var i := SameNoteLine(lex, lines, gone);
    LinesOfSome(lex, lines, text);
    if i < |lines| { LinesOfRemoveAt(lex, lines, i, text); }
  }

  lemma {:induction false} WithHasLine(lex: Lexicon, lines: seq<string>, notes: seq<Entry>, text: string)
    ensures HasLine(lex, LinesWith(lines, notes), text) <==> (HasLine(lex, lines, text) || NotesOf(lex, notes, text) > 0)
  {
    if notes != [] {
      var n := |notes| - 1;
      var before := LinesWith(lines, notes[..n]);
      WithHasLine(lex, lines, notes[..n], text);
      AppendedHasLine(lex, before, notes[n].content, text);
    }
  }

  lemma AppendedHasLine(lex: Lexicon, lines: seq<string>, value: string, text: string)
    ensures HasLine(lex, lines + [value], text) <==> (HasLine(lex, lines, text) || lex.canon(value) == lex.canon(text))
    ensures value in lines && lex.canon(value) == lex.canon(text) ==> HasLine(lex, lines, text)
  {
    if HasLine(lex, lines, text) {
      var t :| t in lines && lex.canon(t) == lex.canon(text);
      assert t in lines + [value];
    }
    assert value in lines + [value];
  }

  lemma NoteCounted(lex: Lexicon, notes: seq<Entry>, e: Entry)
    requires e in notes
    ensures NotesOf(lex, notes, e.content) > 0
  {
    CountBound(notes, (x: Entry) => lex.canon(x.content) == lex.canon(e.content));
  }

  lemma JoinedHasLine(env: Env, p: Ledger, latest: seq<Entry>, keys: set<Key>, text: string)
    ensures HasLine(env.lex, JoinedLines(env, p, latest, keys), text) <==>
      (LinesOf(env.lex, Lines(p, NOTES), text) > NotesOf(env.lex, Overtakings(p.registry, latest), text)
       || NotesOf(env.lex, Arrivals(env, p.registry, latest, keys), text) > 0)
  {
    hide LinesOf, NotesOf, Overtakings, Arrivals, LinesWith, LinesLess, Lines, HasLine;
    var left := LinesLess(env.lex, Lines(p, NOTES), Overtakings(p.registry, latest));
    LessLinesOf(env.lex, Lines(p, NOTES), Overtakings(p.registry, latest), text);
    WithHasLine(env.lex, left, Arrivals(env, p.registry, latest, keys), text);
    LinesOfSome(env.lex, left, text);
  }

  /** Exactly the notes the join is said to lose have no line after it. */
  lemma JoinLosesIff(env: Env, p: Ledger, latest: seq<Entry>, keys: set<Key>, i: nat)
    ensures Lineless(env.lex, JoinedEntries(env, p.registry, latest, keys), JoinedLines(env, p, latest, keys), i) <==> JoinLoses(env, p, latest, keys, i)
  {
    hide JoinedLines, LinesOf, NotesOf, Overtakings, Arrivals, HasLine, Adopted, Settle;
    var r := JoinedEntries(env, p.registry, latest, keys);
    if HeldNote(r, i) {
      JoinedHasLine(env, p, latest, keys, r[i].content);
      if i < |p.registry| {
        SettleEvolves(p.registry[i], latest);
      } else {
        ArrivalHere(env, p.registry, latest, keys, i);
        NoteCounted(env.lex, Arrivals(env, p.registry, latest, keys), r[i]);
      }
    }
  }

  lemma ArrivalHere(env: Env, p: seq<Entry>, latest: seq<Entry>, keys: set<Key>, i: nat)
    requires |p| <= i && HeldNote(JoinedEntries(env, p, latest, keys), i)
    ensures JoinedEntries(env, p, latest, keys)[i] in Arrivals(env, p, latest, keys)
  {
    hide Settle;
    var e := JoinedEntries(env, p, latest, keys)[i];
    assert e == Adopted(env, Ids(p), keys, latest)[i - |p|];
    assert e in Adopted(env, Ids(p), keys, latest);
  }

  // ---------------------------------------------------------------- the commit

  lemma RetiringIs(env: Env, s: Ledger, keys: set<Key>, now: nat)
    ensures var s' := RetireForgotten(env, s, keys, now).0;
            s'.registry == StampAll(env, keys, now, s.registry) && Lines(s', NOTES) == KeptNotes(env, keys, Lines(s, NOTES))
  {
    if keys == {} || env.pack.group(NOTES).None? {
      FilterAll(Lines(s, NOTES), t => !NoteForgotten(env, keys, t));
      assert StampAll(env, keys, now, s.registry) == s.registry;
    } else if NOTES !in s.profile {
      assert KeptNotes(env, keys, []) == [];
    }
  }

  /** Forgetting takes a text's note and its lines together. */
  lemma ForgettingLines(env: Env, r: seq<Entry>, lines: seq<string>, keys: set<Key>, now: nat, i: nat)
    ensures var r' := StampAll(env, keys, now, r);
            Lineless(env.lex, r', KeptNotes(env, keys, lines), i) <==> HeldNote(r', i) && Lineless(env.lex, r, lines, i)
  {
    hide IsCallerNote;
    var r' := StampAll(env, keys, now, r);
    assert Grows(r, r', {});
    if HeldNote(r', i) { HeldBefore(r, r', {}, i); }
    if i < |r| && HeldNote(r, i) && !NoteForgotten(env, keys, r[i].content) {
      var text := r[i].content;
      assert forall t :: env.lex.canon(t) == env.lex.canon(text) ==> !NoteForgotten(env, keys, t);
      assert HasLine(env.lex, KeptNotes(env, keys, lines), text) <==> HasLine(env.lex, lines, text);
    }
  }

  /** A commit ends with a note active and without a line if and only if it loses it, judged by the two ledgers alone. */
  lemma CommitLosesIff(env: Env, p: Ledger, latest: Ledger, keys: set<Key>, now: nat, i: nat)
    requires UniqueIds(p.registry) && UniqueIds(latest.registry)
    requires SameTexts(latest.registry, p.registry) && Ordered(latest.registry, p.registry)
    ensures var s' := CarryOver(env, p, latest, keys, now);
            && |s'.registry| == |JoinedEntries(env, p.registry, latest.registry, keys)|
            && (i < |s'.registry| ==>
                  (Lineless(env.lex, s'.registry, Lines(s', NOTES), i) <==> CommitLoses(env, p, latest.registry, keys, now, i)))
  {
    hide CarryAll, HoldToCap, RetireForgotten, JoinedEntries, JoinedLines, Lineless, PushedOut, KeptNotes, JoinLoses, Ordered, SameTexts;
    var r := latest.registry;
    var c := CarryAll(env, p, r, keys);
    var cleaned := RetireForgotten(env, c, keys, now).0;
    assert r[..|r|] == r;
    CarriedEntries(env, p, r, keys);
    CarriedLines(env, p, r, keys, |r|);
    RetiringIs(env, c, keys, now);
    CapKeepsLength(env, cleaned, now);
    if i < |cleaned.registry| {
      CapLeavesIff(env, cleaned, now, i);
      JoinLosesIff(env, p, r, keys, i);
      ForgettingLines(env, JoinedEntries(env, p.registry, r, keys), JoinedLines(env, p, r, keys), keys, now, i);
      PushedOutIsOwn(env.lex, env.pack.cap(NOTES), cleaned.registry, Lines(cleaned, NOTES), i);
    }
  }

  /** A commit leaves every caller's note with a line if and only if it loses none. */
  lemma CommitShownIff(env: Env, p: Ledger, latest: Ledger, keys: set<Key>, now: nat)
    requires UniqueIds(p.registry) && UniqueIds(latest.registry)
    requires SameTexts(latest.registry, p.registry) && Ordered(latest.registry, p.registry)
    ensures Shown(env.lex, CarryOver(env, p, latest, keys, now)) <==>
      forall i :: 0 <= i < |JoinedEntries(env, p.registry, latest.registry, keys)| ==> !CommitLoses(env, p, latest.registry, keys, now, i)
  {
    hide CarryOver, CommitLoses, Lineless, JoinedEntries, Ordered, SameTexts;
    CommitLosesIff(env, p, latest, keys, now, 0);
    forall i | 0 <= i < |JoinedEntries(env, p.registry, latest.registry, keys)|
      ensures Lineless(env.lex, CarryOver(env, p, latest, keys, now).registry, Lines(CarryOver(env, p, latest, keys, now), NOTES), i)
         <==> CommitLoses(env, p, latest.registry, keys, now, i)
    {
      CommitLosesIff(env, p, latest, keys, now, i);
    }
  }

  // ---------------------------------------------------------------- it can happen

  lemma FilterLast<T(!new)>(s: seq<T>, x: T, p: T -> bool)
    requires forall y :: y in s ==> !p(y)
    ensures Filter(s + [x], p) == if p(x) then [x] else []
  {
    assert (s + [x])[..|s|] == s;
    FilterNone(s, p);
  }

  lemma OnlyNewsArrives(env: Env, r: seq<Entry>, news: Entry)
    requires news.id !in Ids(r) && Active(news) && news.facet == Some(NOTES)
    requires forall e :: e in r ==> Active(e)
    ensures Overtakings(r, r + [news]) == [] && Arrivals(env, r, r + [news], {}) == [news] && Adopted(env, Ids(r), {}, r + [news]) == [news]
  {
    hide Overtaken, Adoptable, Ids, Filter;
    forall e | e in r ensures !Overtaken(r, e) && !Adoptable(env, Ids(r), {}, e) {
      AllKnown(env, r, e);
    }
    OvertakenIsKnown(r, news);
    NewsAdoptable(env, r, news);
    FilterLast(r, news, e => Overtaken(r, e));
    FilterLast(r, news, e => Active(e) && Adoptable(env, Ids(r), {}, e));
    FilterLast(r, news, e => Adoptable(env, Ids(r), {}, e));
  }

  lemma OnlyNewsEntries(env: Env, r: seq<Entry>, news: Entry)
    requires news.id !in Ids(r) && Active(news) && news.facet == Some(NOTES)
    requires forall e :: e in r ==> Active(e)
    ensures JoinedEntries(env, r, r + [news], {}) == r + [news]
  {
    hide Settle, Adopted, Ids;
    OnlyNewsArrives(env, r, news);
    forall j | 0 <= j < |r| ensures Settle(r[j], r + [news]) == r[j] {
      SettleKeeps(r[j], r + [news]);
    }
  }

  lemma OnlyNewsLines(env: Env, p: Ledger, news: Entry)
    requires news.id !in Ids(p.registry) && Active(news) && news.facet == Some(NOTES) && news.content !in Lines(p, NOTES)
    requires forall e :: e in p.registry ==> Active(e)
    ensures JoinedLines(env, p, p.registry + [news], {}) == Lines(p, NOTES) + [news.content]
  {
    hide Overtakings, Arrivals, Ids, Lines;
    OnlyNewsArrives(env, p.registry, news);
    assert LinesLess(env.lex, Lines(p, NOTES), []) == Lines(p, NOTES);
    WithMore(Lines(p, NOTES), [], news);
    assert [] + [news] == [news];
  }

  lemma AllKnown(env: Env, r: seq<Entry>, e: Entry)
    requires e in r && Active(e)
    ensures !Overtaken(r, e) && !Adoptable(env, Ids(r), {}, e)
  {
  }

  lemma NewsAdoptable(env: Env, r: seq<Entry>, news: Entry)
    requires news.id !in Ids(r) && news.facet == Some(NOTES)
    ensures Adoptable(env, Ids(r), {}, news)
  {
  }

  /**
   * A decision with the text of a caller's note, stored without a facet before it, takes the note's
   * place when the cap makes room for a note written while the digest ran.
   */
  lemma CommitCanLoseALine(env: Env, decision: Entry, note: Stamp, text: string, news: Stamp, line: string, now: nat)
    requires Active(decision) && decision.facet.None? && decision.content == text
    requires decision.id != note.id && news.id != decision.id && news.id != note.id
    requires env.pack.cap(NOTES) == 1 && env.lex.canon(line) != env.lex.canon(text)
    ensures var p := Ledger([decision, NoteEntry(text, note)], map[NOTES := [text]]);
            var latest := Ledger(p.registry + [NoteEntry(line, news)], map[NOTES := [text, line]]);
            && Shown(env.lex, p) && Shown(env.lex, latest)
            && CommitLoses(env, p, latest.registry, {}, now, 1)
  {
    hide JoinedEntries, JoinedLines, JoinLoses, PushedOut, StampForgotten, KeptNotes;
    var p := Ledger([decision, NoteEntry(text, note)], map[NOTES := [text]]);
    var r, lines := p.registry + [NoteEntry(line, news)], [text, line];
    assert Lines(p, NOTES) == [text] && [text] + [line] == lines;
    assert text in [text] && text in lines && line in lines;
    OnlyNewsEntries(env, p.registry, NoteEntry(line, news));
    OnlyNewsLines(env, p, NoteEntry(line, news));
    NothingForgotten(env, r, lines, now);
    PushedOutExample(env, r, text, line);
  }

  lemma NothingForgotten(env: Env, r: seq<Entry>, lines: seq<string>, now: nat)
    ensures StampAll(env, {}, now, r) == r && KeptNotes(env, {}, lines) == lines
  {
    FilterAll(lines, t => !NoteForgotten(env, {}, t));
  }

  lemma PushedOutExample(env: Env, r: seq<Entry>, text: string, line: string)
    requires |r| == 3 && Evictable(env.lex, text, r[0]) && HeldNote(r, 1) && r[1].content == text
    requires HeldNote(r, 2) && r[2].content == line && env.lex.canon(line) != env.lex.canon(text)
    ensures PushedOut(env.lex, 1, r, [text, line], 1)
  {
    var lex, lines := env.lex, [text, line];
    hide Evictable, Outlasts;
    LastLineIs(lex, lines, text, 0);
    LinesOfRemoveAt(lex, lines, 1, text);
    assert RemoveAt(lines, 1) == [text];
    CountBound([text], t => lex.canon(t) == lex.canon(text));
    CountBound(r[..1], e => Evictable(lex, text, e));
    assert r[0] in r[..1];
    var gone := lines[..1];
    OwnIsBacked(lex, r, 2, line);
    OneGone(lex, gone, line);
    BackedOutlasts(lex, r, gone, line);
    assert lines[1..] == [line];
    CountAll([line], t => Outlasts(lex, r, gone, t));
  }
}
