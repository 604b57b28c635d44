/** The embedded backend's transactions on one scope (apps/mcp/src/embedded.ts, apps/mcp/src/digest-write.ts). */
module EmbeddedStore {
  import opened Options
  import opened FactRegistry
  import opened RegistryHistory
  import opened Handoff
  import opened ScopeStore
  import opened LedgerWrites
  import opened DigestWrites

  class Scope {
    var snapshot: Option<Ledger>
    var forgotten: set<Key>

    /** The store as a state of the machine in module ScopeStore, with no digest under way. */
    function AsWorld(): World
      reads this
    {
      World(snapshot, forgotten, None, {})
    }

    constructor ()
      ensures AsWorld() == World(None, {}, None, {})
    {
      snapshot := None;
      forgotten := {};
    }

    /** `remember`: the snapshot is read, changed in memory and written back only when it changed. */
    method Remember(env: Env, text: string, stamp: Stamp) returns (superseded: Option<string>)
      modifies this
      ensures AsWorld() == Effect(env, old(AsWorld()), Step.Remember(text, stamp))
      ensures old(snapshot).None? ==> superseded == None
      ensures old(snapshot).Some? ==> superseded == AddNote(env, old(snapshot).value, text, stamp, forgotten).superseded
    {
      if snapshot.Some? {
        var state := new DigestState(snapshot.value);
        var changed, replaced := AddNoteFact(env, state, text, stamp, forgotten);
        if changed { snapshot := Some(state.Value()); }
        return replaced;
      }
      var state := new DigestState(EMPTY);
      var _, _ := AddNoteFact(env, state, text, stamp, {});
      snapshot := Some(state.Value());
      return None;
    }

    /** `forget`: the key is recorded, and the snapshot rewritten when a note went. */
    method Forget(env: Env, key: Key, now: nat)
      modifies this
      ensures AsWorld() == Effect(env, old(AsWorld()), Step.Forget(key, now))
    {
      forgotten := forgotten + {key};
      if snapshot.Some? {
        var state := new DigestState(snapshot.value);
        var count := RetireForgottenNotes(env, state, {key}, now);
        if count > 0 { snapshot := Some(state.Value()); }
      }
    }

    /** The ledger a digest starts from: a normalised copy of the snapshot. */
    method ReadForDigest(ghost env: Env) returns (state: DigestState, keys: set<Key>)
      ensures fresh(state)
      ensures Effect(env, AsWorld(), DigestBegin).flight == Some(Flight(keys, state.Value()))
    {
      state := new DigestState(NormalizeLedger(Latest(AsWorld())));
      keys := forgotten;
    }

    /** `createDigestWithSnapshot`: the notes changed meanwhile are carried into the state it writes. */
    method CreateDigestWithSnapshot(env: Env, state: DigestState, ghost keys: set<Key>, now: nat)
      modifies this, state
      ensures AsWorld() == Effect(env, old(AsWorld()).(flight := Some(Flight(keys, old(state.Value())))), DigestCommit(now))
    {
      hide CarryOver;
      if snapshot.Some? {
        CarryOverConcurrentNotes(env, state, snapshot.value, forgotten, now);
      }
      snapshot := Some(state.Value());
    }
  }
}
