/**
 * Which notes the cap leaves without a line at a commit (packages/core/src/handoff.ts:188-194), said
 * of the ledger the cap is applied to and not of the evictions it goes through.
 *
 * Each eviction of a text's line takes the next active entry with that text, so a note outlives its
 * text's lines when at least as many such entries come before it. While it does, its lines go only
 * as the oldest of all, once every line left has a caller's note behind it.
 */
module CapLines {
  import opened Seqs
  import opened FactRegistry
  import opened RegistryLaws
  import opened Handoff
  import opened NoteLines

  /** How many lines have the text. */
  function LinesOf(lex: Lexicon, lines: seq<string>, text: string): nat {
    Count(lines, t => lex.canon(t) == lex.canon(text))
  }

  /** How many entries with the text are evicted before the one at `i`. */
  function Ahead(lex: Lexicon, r: seq<Entry>, text: string, i: nat): nat
    requires i <= |r|
  {
    Count(r[..i], e => Evictable(lex, text, e))
  }

  /** A caller's note with the text is still active when as many of its lines as `gone` holds were evicted. */
  predicate Outlasts(lex: Lexicon, r: seq<Entry>, gone: seq<string>, text: string) {
    exists k :: 0 <= k < |r| && BackedByCaller(lex, r, NOTES, text, k) && Ahead(lex, r, text, k) >= LinesOf(lex, gone, text)
  }

  /** Index of the last line with the text, or the length. */
  function LastLine(lex: Lexicon, lines: seq<string>, text: string): (m: nat)
    ensures m <= |lines|
    ensures m < |lines| ==> lex.canon(lines[m]) == lex.canon(text) && forall n :: m < n < |lines| ==> lex.canon(lines[n]) != lex.canon(text)
    ensures m == |lines| ==> forall n :: 0 <= n < |lines| ==> lex.canon(lines[n]) != lex.canon(text)
  {
    Last(lines, t => lex.canon(t) == lex.canon(text))
  }

  /** How many of the lines after line `m` are still backed once the lines up to `m` are gone. */
  function StandingAfter(lex: Lexicon, r: seq<Entry>, lines: seq<string>, m: nat): nat
    requires m < |lines|
  {
    Count(lines[m + 1..], t => Outlasts(lex, r, lines[..m + 1], t))
  }

  /**
   * The cap takes every line of the note at `i` and leaves the note: it comes after as many entries as
   * its text has lines, and the lines after its last one that stay backed fill the facet.
   */
  predicate PushedOut(lex: Lexicon, cap: nat, r: seq<Entry>, lines: seq<string>, i: nat) {
    && HeldNote(r, i)
    && var m := LastLine(lex, lines, r[i].content);
       && m < |lines|
       && Ahead(lex, r, r[i].content, i) >= LinesOf(lex, lines, r[i].content)
       && StandingAfter(lex, r, lines, m) >= cap
  }

  // ---------------------------------------------------------------- counting

  lemma {:induction false} CountConcat<T>(a: seq<T>, b: seq<T>, p: T -> bool)
    ensures Count(a + b, p) == Count(a, p) + Count(b, p)
  {
    if b == [] {
      assert a + b == a;
    } else {
      var n := |b| - 1;
      CountConcat(a, b[..n], p);
      assert (a + b)[..|a + b| - 1] == a + b[..n] && (a + b)[|a + b| - 1] == b[n];
    }
  }

  lemma CountRemoveAt<T(!new)>(s: seq<T>, i: nat, p: T -> bool)
    requires i < |s|
    ensures Count(s, p) == Count(RemoveAt(s, i), p) + if p(s[i]) then 1 else 0
  {
    CountSplit(s, i, p);
    CountConcat(s[..i], s[i + 1..], p);
    assert RemoveAt(s, i) == s[..i] + s[i + 1..];
  }

  lemma CountSplit<T>(s: seq<T>, i: nat, p: T -> bool)
    requires i < |s|
    ensures Count(s, p) == Count(s[..i], p) + (if p(s[i]) then 1 else 0) + Count(s[i + 1..], p)
  {
    hide Count;
    assert s == s[..i + 1] + s[i + 1..];
    CountConcat(s[..i + 1], s[i + 1..], p);
    CountPrefix(s, i, p);
  }

  lemma CountPrefix<T>(s: seq<T>, i: nat, p: T -> bool)
    requires i < |s|
    ensures Count(s[..i + 1], p) == Count(s[..i], p) + if p(s[i]) then 1 else 0
  {
    PrefixStep(s, i);
  }

  lemma {:induction false} CountAll<T(!new)>(s: seq<T>, p: T -> bool)
    requires forall i :: 0 <= i < |s| ==> p(s[i])
    ensures Count(s, p) == |s|
  {
    if s != [] { CountAll(s[..|s| - 1], p); }
  }

  /** One element of a list is replaced by one that does not satisfy `p`. */
  lemma {:induction false} CountUpdate<T>(s: seq<T>, j: nat, x: T, p: T -> bool)
    requires j < |s| && !p(x)
    ensures Count(s, p) == Count(s[j := x], p) + if p(s[j]) then 1 else 0
  {
    var n := |s| - 1;
    if j < n {
      CountUpdate(s[..n], j, x, p);
      assert s[j := x][..n] == s[..n][j := x];
    } else {
      assert s[j := x][..n] == s[..n];
    }
  }

  lemma LinesOfSome(lex: Lexicon, lines: seq<string>, text: string)
    ensures LinesOf(lex, lines, text) == 0 <==> !HasLine(lex, lines, text)
    ensures LinesOf(lex, lines, text) == 0 <==> LastLine(lex, lines, text) == |lines|
  {
    CountBound(lines, t => lex.canon(t) == lex.canon(text));
    assert forall n :: 0 <= n < |lines| ==> lines[n] in lines;
  }

  lemma LinesOfRemoveAt(lex: Lexicon, lines: seq<string>, j: nat, text: string)
    requires j < |lines|
    ensures LinesOf(lex, lines, text) == LinesOf(lex, RemoveAt(lines, j), text) + if lex.canon(lines[j]) == lex.canon(text) then 1 else 0
  {
    CountRemoveAt(lines, j, t => lex.canon(t) == lex.canon(text));
  }

  /** Retiring the entry at `j` takes it from the count of those ahead of an entry after it. */
  lemma AheadAfter(lex: Lexicon, r: seq<Entry>, j: nat, now: nat, text: string, k: nat)
    requires j < |r| && k <= |r|
    ensures Ahead(lex, r, text, k)
         == Ahead(lex, Retire(r, j, now, CapEvicted), text, k) + if j < k && Evictable(lex, text, r[j]) then 1 else 0
  {
    var r' := Retire(r, j, now, CapEvicted);
    if j < k {
      assert r'[..k] == r[..k][j := r'[j]];
      CountUpdate(r[..k], j, r'[j], e => Evictable(lex, text, e));
    } else {
      assert r'[..k] == r[..k];
    }
  }

  lemma NoneAhead(lex: Lexicon, r: seq<Entry>, text: string, k: nat)
    requires k <= |r| && forall j :: 0 <= j < k ==> !Evictable(lex, text, r[j])
    ensures Ahead(lex, r, text, k) == 0
  {
    CountBound(r[..k], e => Evictable(lex, text, e));
  }

  // ---------------------------------------------------------------- one eviction

  /** The entry that goes with a line. */
  function Evicted(lex: Lexicon, r: seq<Entry>, text: string): (i: nat)
    ensures i <= |r|
    ensures i < |r| ==> Evictable(lex, text, r[i])
    ensures forall j :: 0 <= j < i ==> !Evictable(lex, text, r[j])
  {
    First(r, e => Evictable(lex, text, e))
  }

  /** The registry after the line leaves. */
  function WithoutEvicted(lex: Lexicon, r: seq<Entry>, text: string, now: nat): (r': seq<Entry>)
    ensures |r'| == |r|
  {
    Retire(r, Evicted(lex, r, text), now, CapEvicted)
  }

  lemma EvictionIs(lex: Lexicon, s: Ledger, j: nat, now: nat)
    requires j < |Lines(s, NOTES)|
    ensures var s' := EvictNote(lex, s, j, now);
            && Lines(s', NOTES) == RemoveAt(Lines(s, NOTES), j)
            && s'.registry == WithoutEvicted(lex, s.registry, Lines(s, NOTES)[j], now)
  {
    hide RemoveAt, BackedByCaller;
    var line := Lines(s, NOTES)[j];
    var target := RetireTarget(lex, s.registry, line, NOTES, true, false);
    assert forall e :: Retirable(lex, s.registry, line, NOTES, true, false, e) <==> Evictable(lex, line, e);
    assert target == Evicted(lex, s.registry, line);
  }

  lemma BackedAfter(lex: Lexicon, r: seq<Entry>, line: string, now: nat, text: string, k: nat)
    ensures BackedByCaller(lex, WithoutEvicted(lex, r, line, now), NOTES, text, k)
       <==> (k != Evicted(lex, r, line) && BackedByCaller(lex, r, NOTES, text, k))
  {
    hide IsCallerNote, Evicted;
    var r' := WithoutEvicted(lex, r, line, now);
    if k < |r| {
      assert Grows(r, r', {});
      CallerStable(r, r', {}, r[k]);
    }
  }

  /** A note other than the entry that goes with the line stays a caller's. */
  lemma HeldAfterEviction(lex: Lexicon, r: seq<Entry>, line: string, now: nat, i: nat)
    requires HeldNote(r, i) && i != Evicted(lex, r, line)
    ensures HeldNote(WithoutEvicted(lex, r, line, now), i) && WithoutEvicted(lex, r, line, now)[i] == r[i]
  {
    hide IsCallerNote, Evicted;
    var r' := WithoutEvicted(lex, r, line, now);
    assert Grows(r, r', {});
    HeldStable(r, r', {}, i);
  }

  /** Evicting a line and counting it as gone changes nothing for the texts of the other lines. */
  lemma OutlastsAt(lex: Lexicon, r: seq<Entry>, line: string, now: nat, gone: seq<string>, gone': seq<string>, text: string, k: nat)
    requires k < |r|
    requires LinesOf(lex, gone, text) == LinesOf(lex, gone', text) + if lex.canon(line) == lex.canon(text) then 1 else 0
    ensures var r' := WithoutEvicted(lex, r, line, now);
            (BackedByCaller(lex, r, NOTES, text, k) && Ahead(lex, r, text, k) >= LinesOf(lex, gone, text)) <==>
            (BackedByCaller(lex, r', NOTES, text, k) && Ahead(lex, r', text, k) >= LinesOf(lex, gone', text))
  {
    hide LinesOf, Ahead, IsCallerNote, Evicted, WithoutEvicted;
    var target := Evicted(lex, r, line);
    BackedAfter(lex, r, line, now, text, k);
    if BackedByCaller(lex, r, NOTES, text, k) {
      if lex.canon(line) == lex.canon(text) {
        assert Evictable(lex, line, r[k]);
        if k == target { NoneAhead(lex, r, text, k); }
      }
      AheadAfterEviction(lex, r, line, now, text, k);
    }
  }

  lemma AheadAfterEviction(lex: Lexicon, r: seq<Entry>, line: string, now: nat, text: string, k: nat)
    requires k <= |r|
    ensures Ahead(lex, r, text, k) == Ahead(lex, WithoutEvicted(lex, r, line, now), text, k)
              + if lex.canon(line) == lex.canon(text) && Evicted(lex, r, line) < k then 1 else 0
  {
    hide Ahead, Evicted;
    var target := Evicted(lex, r, line);
    if target < |r| { AheadAfter(lex, r, target, now, text, k); }
  }

  lemma OutlastsStill(lex: Lexicon, r: seq<Entry>, line: string, now: nat, gone: seq<string>, gone': seq<string>, text: string)
    requires LinesOf(lex, gone, text) == LinesOf(lex, gone', text) + if lex.canon(line) == lex.canon(text) then 1 else 0
    ensures Outlasts(lex, r, gone, text) <==> Outlasts(lex, WithoutEvicted(lex, r, line, now), gone', text)
  {
    hide LinesOf, Ahead, BackedByCaller, WithoutEvicted;
    var r' := WithoutEvicted(lex, r, line, now);
    forall k | 0 <= k < |r|
      ensures (BackedByCaller(lex, r, NOTES, text, k) && Ahead(lex, r, text, k) >= LinesOf(lex, gone, text)) <==>
              (BackedByCaller(lex, r', NOTES, text, k) && Ahead(lex, r', text, k) >= LinesOf(lex, gone', text))
    {
      OutlastsAt(lex, r, line, now, gone, gone', text, k);
    }
  }

  /** Evicting a line no caller's note backs changes nothing for any text. */
  lemma OutlastsUnbacked(lex: Lexicon, r: seq<Entry>, line: string, now: nat, gone: seq<string>, text: string)
    requires !IsCallerNoteText(lex, r, NOTES, line)
    ensures Outlasts(lex, r, gone, text) <==> Outlasts(lex, WithoutEvicted(lex, r, line, now), gone, text)
    ensures !Outlasts(lex, r, gone, line)
  {
    hide LinesOf, Ahead, WithoutEvicted, IsCallerNote;
    var r' := WithoutEvicted(lex, r, line, now);
    if lex.canon(line) == lex.canon(text) {
      forall k | 0 <= k < |r| ensures !BackedByCaller(lex, r, NOTES, text, k) && !BackedByCaller(lex, r', NOTES, text, k) {
        assert !BackedByCaller(lex, r, NOTES, line, k);
        BackedAfter(lex, r, line, now, text, k);
      }
    } else {
      OutlastsStill(lex, r, line, now, gone, gone, text);
    }
  }

  /** A line before the last one with the text is evicted. */
  lemma EarlierLineLeaves(lex: Lexicon, r: seq<Entry>, lines: seq<string>, j: nat, m: nat, now: nat)
    requires j < m < |lines|
    ensures StandingAfter(lex, r, lines, m) == StandingAfter(lex, WithoutEvicted(lex, r, lines[j], now), RemoveAt(lines, j), m - 1)
  {
    hide LinesOf, Outlasts, WithoutEvicted;
    var r' := WithoutEvicted(lex, r, lines[j], now);
    var lines' := RemoveAt(lines, j);
    var gone, gone', rest := lines[..m + 1], lines'[..m], lines[m + 1..];
    assert lines'[m..] == rest;
    assert gone' == RemoveAt(gone, j);
    forall n | 0 <= n < |rest| ensures Outlasts(lex, r, gone, rest[n]) == Outlasts(lex, r', gone', rest[n]) {
      LinesOfRemoveAt(lex, gone, j, rest[n]);
      OutlastsStill(lex, r, lines[j], now, gone, gone', rest[n]);
    }
    CountSame(rest, t => Outlasts(lex, r, gone, t), t => Outlasts(lex, r', gone', t));
  }

  /** A line after the last one with the text is evicted, which no caller's note backs. */
  lemma LaterLineLeaves(lex: Lexicon, r: seq<Entry>, lines: seq<string>, j: nat, m: nat, now: nat)
    requires m < j < |lines| && !IsCallerNoteText(lex, r, NOTES, lines[j])
    ensures StandingAfter(lex, r, lines, m) == StandingAfter(lex, WithoutEvicted(lex, r, lines[j], now), RemoveAt(lines, j), m)
  {
    hide LinesOf, Outlasts, WithoutEvicted, IsCallerNoteText;
    var r' := WithoutEvicted(lex, r, lines[j], now);
    var lines' := RemoveAt(lines, j);
    var gone, rest, rest' := lines[..m + 1], lines[m + 1..], lines'[m + 1..];
    assert lines'[..m + 1] == gone;
    assert rest' == RemoveAt(rest, j - m - 1);
    OutlastsUnbacked(lex, r, lines[j], now, gone, lines[j]);
    CountRemoveAt(rest, j - m - 1, t => Outlasts(lex, r, gone, t));
    forall n | 0 <= n < |rest'| ensures Outlasts(lex, r, gone, rest'[n]) == Outlasts(lex, r', gone, rest'[n]) {
      OutlastsUnbacked(lex, r, lines[j], now, gone, rest'[n]);
    }
    CountSame(rest', t => Outlasts(lex, r, gone, t), t => Outlasts(lex, r', gone, t));
  }

  lemma LastLineIs(lex: Lexicon, lines: seq<string>, text: string, m: nat)
    requires m < |lines| && lex.canon(lines[m]) == lex.canon(text)
    requires forall n :: m < n < |lines| ==> lex.canon(lines[n]) != lex.canon(text)
    ensures LastLine(lex, lines, text) == m
  {
  }

  lemma LastLineAfter(lex: Lexicon, lines: seq<string>, j: nat, text: string)
    requires j < |lines| && HasLine(lex, lines, text)
    ensures var m := LastLine(lex, lines, text);
            && (j < m ==> LastLine(lex, RemoveAt(lines, j), text) == m - 1)
            && (m < j ==> LastLine(lex, RemoveAt(lines, j), text) == m)
  {
    hide Last;
    var m := LastLine(lex, lines, text);
    var lines' := RemoveAt(lines, j);
    if j < m {
      assert lines'[m - 1] == lines[m];
      assert forall n :: m - 1 < n < |lines'| ==> lines'[n] == lines[n + 1];
      LastLineIs(lex, lines', text, m - 1);
    } else if m < j {
      assert lines'[m] == lines[m];
      assert forall n :: m < n < |lines'| ==> lines'[n] == lines[if n < j then n else n + 1];
      LastLineIs(lex, lines', text, m);
    }
  }

  // ---------------------------------------------------------------- the whole cap

  /** A backed line leaves only as the oldest, with every other line backed too. */
  lemma SurplusIs(lex: Lexicon, s: Ledger)
    requires Lines(s, NOTES) != []
    ensures var lines, j := Lines(s, NOTES), Surplus(lex, s);
            IsCallerNoteText(lex, s.registry, NOTES, lines[j]) ==>
              j == 0 && forall n :: 0 <= n < |lines| ==> IsCallerNoteText(lex, s.registry, NOTES, lines[n])
  {
    hide IsCallerNoteText;
  }

  lemma OwnIsBacked(lex: Lexicon, r: seq<Entry>, i: nat, text: string)
    requires HeldNote(r, i) && lex.canon(r[i].content) == lex.canon(text)
    ensures IsCallerNoteText(lex, r, NOTES, text)
  {
    assert BackedByCaller(lex, r, NOTES, text, i);
  }

  /** Before any line is gone, what is backed outlasts. */
  lemma BackedOutlasts(lex: Lexicon, r: seq<Entry>, gone: seq<string>, text: string)
    requires IsCallerNoteText(lex, r, NOTES, text) && LinesOf(lex, gone, text) == 0
    ensures Outlasts(lex, r, gone, text)
  {
    hide LinesOf, Ahead;
    var k :| 0 <= k < |r| && BackedByCaller(lex, r, NOTES, text, k);
    assert Ahead(lex, r, text, k) >= 0;
  }

  /** The line that leaves has another text. */
  lemma OtherTextLeaves(env: Env, s: Ledger, now: nat, i: nat)
    requires |Lines(s, NOTES)| > env.pack.cap(NOTES)
    requires HeldNote(s.registry, i) && HasLine(env.lex, Lines(s, NOTES), s.registry[i].content)
    requires env.lex.canon(Lines(s, NOTES)[Surplus(env.lex, s)]) != env.lex.canon(s.registry[i].content)
    ensures var s' := EvictNote(env.lex, s, Surplus(env.lex, s), now);
            && |s'.registry| == |s.registry| && s'.registry[i] == s.registry[i]
            && HasLine(env.lex, Lines(s', NOTES), s.registry[i].content)
            && (PushedOut(env.lex, env.pack.cap(NOTES), s.registry, Lines(s, NOTES), i)
                <==> PushedOut(env.lex, env.pack.cap(NOTES), s'.registry, Lines(s', NOTES), i))
  {
    hide Surplus, RemoveAt, EvictNote, Lines, StandingAfter, Ahead, LinesOf, LastLine, Evicted, IsCallerNoteText, HasLine;
    var lex, r, lines, j := env.lex, s.registry, Lines(s, NOTES), Surplus(env.lex, s);
    var text := r[i].content;
    var m := LastLine(lex, lines, text);
    EvictionIs(lex, s, j, now);
    HeldAfterEviction(lex, r, lines[j], now, i);
    AheadAfterEviction(lex, r, lines[j], now, text, i);
    LinesOfRemoveAt(lex, lines, j, text);
    LinesOfSome(lex, lines, text);
    LinesOfSome(lex, RemoveAt(lines, j), text);
    LastLineAfter(lex, lines, j, text);
    SurplusIs(lex, s);
    if j < m { EarlierLineLeaves(lex, r, lines, j, m, now); }
    else { LaterLineLeaves(lex, r, lines, j, m, now); }
  }

  /** The note itself is the entry that goes. */
  lemma NoteLeaves(lex: Lexicon, cap: nat, r: seq<Entry>, lines: seq<string>, j: nat, now: nat, i: nat)
    requires j < |lines| && HeldNote(r, i) && lex.canon(lines[j]) == lex.canon(r[i].content)
    requires Evicted(lex, r, lines[j]) == i
    ensures !HeldNote(WithoutEvicted(lex, r, lines[j], now), i) && !PushedOut(lex, cap, r, lines, i)
  {
    hide StandingAfter, LinesOf, Ahead, LastLine, Evicted;
    NoneAhead(lex, r, r[i].content, i);
    LinesOfSome(lex, lines, r[i].content);
    assert lines[j] in lines;
  }

  lemma EvictedComesFirst(lex: Lexicon, r: seq<Entry>, line: string, now: nat, i: nat)
    requires HeldNote(r, i) && lex.canon(line) == lex.canon(r[i].content)
    ensures Evicted(lex, r, line) <= i
    ensures Evicted(lex, r, line) != i ==> WithoutEvicted(lex, r, line, now)[i] == r[i]
  {
    assert Evictable(lex, line, r[i]);
  }

  /** The last line of the note leaves and the note stays: every line was backed, so the cap had pushed it out. */
  lemma LastLineLeaves(lex: Lexicon, cap: nat, r: seq<Entry>, lines: seq<string>, i: nat)
    requires |lines| > cap && HeldNote(r, i) && lex.canon(lines[0]) == lex.canon(r[i].content)
    requires LinesOf(lex, lines, r[i].content) == 1 && Evicted(lex, r, lines[0]) < i
    requires forall n :: 0 <= n < |lines| ==> IsCallerNoteText(lex, r, NOTES, lines[n])
    ensures PushedOut(lex, cap, r, lines, i)
  {
    hide IsCallerNoteText, Outlasts, Evicted;
    var text := r[i].content;
    OnlyLine(lex, lines, text);
    AheadAfterEviction(lex, r, lines[0], 0, text, i);
    var gone, rest := lines[..1], lines[1..];
    forall n | 0 <= n < |rest| ensures Outlasts(lex, r, gone, rest[n]) {
      assert rest[n] == lines[n + 1];
      OneGone(lex, gone, rest[n]);
      BackedOutlasts(lex, r, gone, rest[n]);
    }
    CountAll(rest, t => Outlasts(lex, r, gone, t));
  }

  lemma OneGone(lex: Lexicon, gone: seq<string>, text: string)
    requires |gone| == 1 && lex.canon(gone[0]) != lex.canon(text)
    ensures LinesOf(lex, gone, text) == 0
  {
    CountBound(gone, t => lex.canon(t) == lex.canon(text));
  }

  lemma OnlyLine(lex: Lexicon, lines: seq<string>, text: string)
    requires lines != [] && lex.canon(lines[0]) == lex.canon(text) && LinesOf(lex, lines, text) == 1
    ensures LastLine(lex, lines, text) == 0
    ensures forall n :: 0 < n < |lines| ==> lex.canon(lines[n]) != lex.canon(text)
  {
    hide LastLine;
    var rest := RemoveAt(lines, 0);
    LinesOfRemoveAt(lex, lines, 0, text);
    LinesOfSome(lex, rest, text);
    forall n | 0 < n < |lines| ensures lex.canon(lines[n]) != lex.canon(text) {
      assert rest[n - 1] == lines[n] && rest[n - 1] in rest;
    }
    LastLineIs(lex, lines, text, 0);
  }

  /** One of the note's lines leaves, with an entry before it. */
  lemma OwnTextLeaves(env: Env, s: Ledger, now: nat, i: nat)
    requires |Lines(s, NOTES)| > env.pack.cap(NOTES)
    requires HeldNote(s.registry, i)
    requires env.lex.canon(Lines(s, NOTES)[Surplus(env.lex, s)]) == env.lex.canon(s.registry[i].content)
    requires Evicted(env.lex, s.registry, Lines(s, NOTES)[Surplus(env.lex, s)]) < i
    ensures var s' := EvictNote(env.lex, s, Surplus(env.lex, s), now);
            && |s'.registry| == |s.registry| && s'.registry[i] == s.registry[i]
            && (if HasLine(env.lex, Lines(s', NOTES), s.registry[i].content)
                then PushedOut(env.lex, env.pack.cap(NOTES), s.registry, Lines(s, NOTES), i)
                     <==> PushedOut(env.lex, env.pack.cap(NOTES), s'.registry, Lines(s', NOTES), i)
                else PushedOut(env.lex, env.pack.cap(NOTES), s.registry, Lines(s, NOTES), i))
  {
    hide Surplus, RemoveAt, EvictNote, Lines, StandingAfter, Ahead, LinesOf, LastLine, Evicted, IsCallerNoteText, HasLine;
    var lex, r, lines, j := env.lex, s.registry, Lines(s, NOTES), Surplus(env.lex, s);
    var text := r[i].content;
    var m := LastLine(lex, lines, text);
    EvictionIs(lex, s, j, now);
    EvictedComesFirst(lex, r, lines[j], now, i);
    HeldAfterEviction(lex, r, lines[j], now, i);
    OwnIsBacked(lex, r, i, lines[j]);
    SurplusIs(lex, s);
    LinesOfRemoveAt(lex, lines, j, text);
    LinesOfSome(lex, lines, text);
    LinesOfSome(lex, RemoveAt(lines, j), text);
    if LinesOf(lex, lines, text) == 1 {
      LastLineLeaves(lex, env.pack.cap(NOTES), r, lines, i);
    } else {
      AheadAfterEviction(lex, r, lines[j], now, text, i);
      MoreLines(lex, lines, text);
      LastLineAfter(lex, lines, j, text);
      EarlierLineLeaves(lex, r, lines, j, m, now);
    }
  }

  lemma MoreLines(lex: Lexicon, lines: seq<string>, text: string)
    requires lines != [] && LinesOf(lex, lines, text) > 1
    ensures HasLine(lex, lines, text) && 0 < LastLine(lex, lines, text) < |lines|
  {
    hide LastLine;
    LinesOfSome(lex, lines, text);
    if LastLine(lex, lines, text) == 0 {
      var rest := RemoveAt(lines, 0);
      LinesOfRemoveAt(lex, lines, 0, text);
      LinesOfSome(lex, rest, text);
    }
  }

  /** One eviction: the note is pushed out if it is left without a line now, or will be. */
  lemma PushedOutStep(env: Env, s: Ledger, now: nat, i: nat)
    requires |Lines(s, NOTES)| > env.pack.cap(NOTES) && i < |s.registry|
    requires !Lineless(env.lex, s.registry, Lines(s, NOTES), i)
    ensures var s' := EvictNote(env.lex, s, Surplus(env.lex, s), now);
            PushedOut(env.lex, env.pack.cap(NOTES), s.registry, Lines(s, NOTES), i) <==>
            (Lineless(env.lex, s'.registry, Lines(s', NOTES), i) || PushedOut(env.lex, env.pack.cap(NOTES), s'.registry, Lines(s', NOTES), i))
  {
    hide Surplus, EvictNote, Lines, PushedOut, Evicted, WithoutEvicted, HasLine, RemoveAt, IsCallerNote, Grows;
    var lex, r, lines, j := env.lex, s.registry, Lines(s, NOTES), Surplus(env.lex, s);
    var s' := EvictNote(lex, s, j, now);
    EvictionParts(lex, s, j, now);
    if !HeldNote(r, i) {
      if HeldNote(s'.registry, i) { HeldBefore(r, s'.registry, {}, i); }
      PushedOutIsOwn(lex, env.pack.cap(NOTES), r, lines, i);
      PushedOutIsOwn(lex, env.pack.cap(NOTES), s'.registry, Lines(s', NOTES), i);
    } else if lex.canon(lines[j]) != lex.canon(r[i].content) {
      OtherTextLeaves(env, s, now, i);
    } else {
      EvictedComesFirst(lex, r, lines[j], now, i);
      if Evicted(lex, r, lines[j]) == i {
        EvictionIs(lex, s, j, now);
        NoteLeaves(lex, env.pack.cap(NOTES), r, lines, j, now, i);
        PushedOutIsOwn(lex, env.pack.cap(NOTES), s'.registry, Lines(s', NOTES), i);
      } else {
        EvictionIs(lex, s, j, now);
        HeldAfterEviction(lex, r, lines[j], now, i);
        OwnTextLeaves(env, s, now, i);
        PushedOutHasLine(lex, env.pack.cap(NOTES), s'.registry, Lines(s', NOTES), i);
      }
    }
  }

  lemma PushedOutIsOwn(lex: Lexicon, cap: nat, r: seq<Entry>, lines: seq<string>, i: nat)
    ensures PushedOut(lex, cap, r, lines, i) ==> HeldNote(r, i)
  {
  }

  lemma PushedOutHasLine(lex: Lexicon, cap: nat, r: seq<Entry>, lines: seq<string>, i: nat)
    ensures PushedOut(lex, cap, r, lines, i) ==> HeldNote(r, i) && HasLine(lex, lines, r[i].content)
  {
  }

  /** A note without a line gets none back from the cap. */
  lemma {:induction false} StaysLineless(env: Env, s: Ledger, now: nat, i: nat)
    requires Lineless(env.lex, s.registry, Lines(s, NOTES), i)
    ensures var s' := HoldToCap(env, s, now); Lineless(env.lex, s'.registry, Lines(s', NOTES), i)
    decreases |Lines(s, NOTES)|
  {
    hide Surplus, EvictNote, Lines, Evicted, RemoveAt, WithoutEvicted;
    var lines := Lines(s, NOTES);
    if |lines| > env.pack.cap(NOTES) {
      var j := Surplus(env.lex, s);
      EvictionIs(env.lex, s, j, now);
      EvictionSparesOthers(env.lex, s.registry, lines, j, now, i);
      StaysLineless(env, EvictNote(env.lex, s, j, now), now, i);
    }
  }

  lemma EvictionSparesOthers(lex: Lexicon, r: seq<Entry>, lines: seq<string>, j: nat, now: nat, i: nat)
    requires j < |lines| && Lineless(lex, r, lines, i)
    ensures Lineless(lex, WithoutEvicted(lex, r, lines[j], now), RemoveAt(lines, j), i)
  {
    hide Evicted, IsCallerNote;
    assert lines[j] in lines;
    HeldAfterEviction(lex, r, lines[j], now, i);
  }

  /** Exactly the notes that are pushed out are left without a line by the cap. */
  lemma {:induction false} PushedOutIff(env: Env, s: Ledger, now: nat, i: nat)
    requires i < |s.registry| && !Lineless(env.lex, s.registry, Lines(s, NOTES), i)
    ensures var s' := HoldToCap(env, s, now);
            Lineless(env.lex, s'.registry, Lines(s', NOTES), i) <==> PushedOut(env.lex, env.pack.cap(NOTES), s.registry, Lines(s, NOTES), i)
    decreases |Lines(s, NOTES)|
  {
    hide Surplus, EvictNote, Lines, PushedOut, RemoveAt, Lineless;
    var lines := Lines(s, NOTES);
    if |lines| > env.pack.cap(NOTES) {
      var j := Surplus(env.lex, s);
      var s1 := EvictNote(env.lex, s, j, now);
      PushedOutStep(env, s, now, i);
      EvictionParts(env.lex, s, j, now);
      if Lineless(env.lex, s1.registry, Lines(s1, NOTES), i) {
        StaysLineless(env, s1, now, i);
      } else {
        PushedOutIff(env, s1, now, i);
      }
    } else {
      FitsAlready(env.lex, env.pack.cap(NOTES), s.registry, lines, i);
    }
  }

  lemma FitsAlready(lex: Lexicon, cap: nat, r: seq<Entry>, lines: seq<string>, i: nat)
    requires |lines| <= cap
    ensures !PushedOut(lex, cap, r, lines, i)
  {
    hide Outlasts, Ahead, LinesOf;
    if HeldNote(r, i) {
      var m := LastLine(lex, lines, r[i].content);
      if m < |lines| { CountBound(lines[m + 1..], t => Outlasts(lex, r, lines[..m + 1], t)); }
    }
  }

  /** The cap ends with a note active and without a line if and only if it lacked one or is pushed out. */
  lemma CapLeavesIff(env: Env, s: Ledger, now: nat, i: nat)
    requires i < |s.registry|
    ensures var s' := HoldToCap(env, s, now);
            Lineless(env.lex, s'.registry, Lines(s', NOTES), i) <==>
            (Lineless(env.lex, s.registry, Lines(s, NOTES), i) || PushedOut(env.lex, env.pack.cap(NOTES), s.registry, Lines(s, NOTES), i))
  {
    hide HoldToCap, Lineless, PushedOut;
    if Lineless(env.lex, s.registry, Lines(s, NOTES), i) { StaysLineless(env, s, now, i); } else { PushedOutIff(env, s, now, i); }
  }

  lemma {:induction false} CapKeepsLength(env: Env, s: Ledger, now: nat)
    ensures |HoldToCap(env, s, now).registry| == |s.registry|
    decreases |Lines(s, NOTES)|
  {
    if |Lines(s, NOTES)| > env.pack.cap(NOTES) {
      CapKeepsLength(env, EvictNote(env.lex, s, Surplus(env.lex, s), now), now);
    }
  }
}
