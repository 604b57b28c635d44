/** Display facts and the forget path inside the digest pipeline (packages/core/src/memory-facts.ts). */
module MemoryFacts {
  import opened Options
  import opened Seqs
  import opened FactRegistry

  // ---------------------------------------------------------------- pruning

  predicate Prunable(lex: Lexicon, pack: Pack, keys: set<Key>, e: Entry) {
    Active(e) && e.facet.Some? && KeyedIn(lex, pack.group(e.facet.value), keys, e.content)
  }

  function PruneEntry(lex: Lexicon, pack: Pack, keys: set<Key>, now: nat, e: Entry): Entry {
    if Prunable(lex, pack, keys, e) then e.(retired := Some(Retirement(now, Forgotten))) else e
  }

  function PruneEntries(lex: Lexicon, pack: Pack, keys: set<Key>, now: nat, r: seq<Entry>): (r': seq<Entry>)
    ensures |r'| == |r|
    ensures forall i :: 0 <= i < |r| ==> r'[i] == PruneEntry(lex, pack, keys, now, r[i])
  {
    seq(|r|, i requires 0 <= i < |r| => PruneEntry(lex, pack, keys, now, r[i]))
  }

  function PruneLines(lex: Lexicon, group: Option<string>, keys: set<Key>, lines: seq<string>): seq<string> {
    Filter(lines, t => !KeyedIn(lex, group, keys, t))
  }

  function PruneProfile(env: Env, keys: set<Key>, profile: map<string, seq<string>>): (p: map<string, seq<string>>)
    ensures p.Keys == profile.Keys
  {
    map f | f in profile :: PruneLines(env.lex, env.defaultPack.group(f), keys, profile[f])
  }

  /** `pruneForgottenFacts`: lines are keyed by the default pack's groups, entries by `pack`'s. */
  function PruneForgotten(env: Env, pack: Pack, s: Ledger, keys: set<Key>, now: nat): Ledger {
    if keys == {} then s
    else Ledger(PruneEntries(env.lex, pack, keys, now, s.registry), PruneProfile(env, keys, s.profile))
  }

  // ---------------------------------------------------------------- what pruning leaves

  /** The fact's display key, under the group, is among the forgotten ones. */
  predicate GroupForgets(lex: Lexicon, group: Option<string>, keys: set<Key>, text: string) {
    group.Some? && lex.hash(lex.canon(group.value), lex.canon(text)) in keys
  }

  lemma PrunedLines(env: Env, pack: Pack, s: Ledger, keys: set<Key>, now: nat, f: string)
    ensures var s' := PruneForgotten(env, pack, s, keys, now);
            && (f in s'.profile <==> f in s.profile)
            && Lines(s', f) == Filter(Lines(s, f), t => !GroupForgets(env.lex, env.defaultPack.group(f), keys, t))
            && (env.defaultPack.group(f).None? ==> Lines(s', f) == Lines(s, f))
  {
    var group, lines := env.defaultPack.group(f), Lines(s, f);
    FilterSame(lines, t => !KeyedIn(env.lex, group, keys, t), t => !GroupForgets(env.lex, group, keys, t));
    FilterAll(lines, t => !GroupForgets(env.lex, group, keys, t));
  }

  /**
   * Of every facet exactly the lines whose key under the default pack's group of it is not forgotten
   * stay, in order; exactly the active entries whose key under their own facet's group is forgotten
   * are retired, as forgotten now.
   */
  lemma PruningIs(env: Env, pack: Pack, s: Ledger, keys: set<Key>, now: nat)
    ensures var s' := PruneForgotten(env, pack, s, keys, now);
            var r, r' := s.registry, s'.registry;
            && s'.profile.Keys == s.profile.Keys
            && (forall f :: Lines(s', f) == Filter(Lines(s, f), t => !GroupForgets(env.lex, env.defaultPack.group(f), keys, t)))
            && (forall f :: env.defaultPack.group(f).None? ==> Lines(s', f) == Lines(s, f))
            && |r'| == |r|
            && forall i :: 0 <= i < |r| ==>
                 r'[i] == if r[i].supersededBy.None? && r[i].retired.None? && r[i].facet.Some?
                             && GroupForgets(env.lex, pack.group(r[i].facet.value), keys, r[i].content)
                          then r[i].(retired := Some(Retirement(now, Forgotten))) else r[i]
  {
    forall f
      ensures var s' := PruneForgotten(env, pack, s, keys, now);
              && Lines(s', f) == Filter(Lines(s, f), t => !GroupForgets(env.lex, env.defaultPack.group(f), keys, t))
              && (env.defaultPack.group(f).None? ==> Lines(s', f) == Lines(s, f))
    {
      PrunedLines(env, pack, s, keys, now, f);
    }
  }
}
