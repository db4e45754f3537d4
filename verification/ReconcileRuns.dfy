/**
 The stores that reconciliation meets: each arena's directory, journals and retired trees are those
 of a state that the arena protocol reaches, and no nonce is drawn for two arenas.
 */
module ReconcileRuns {
  import opened Prelude
  import opened Runs
  import opened ArenaManifests
  import opened Reconcile
  import opened ReconcileTheorems
  import Protocol = ArenaProtocol
  import Proof = ArenaProtocolProof
  import Theorems = ArenaProtocolTheorems
  import Examples = ArenaProtocolRuns

  /** The protocol's state for each arena. */
  type States = map<Id, Protocol.State>

  ghost predicate AllReached(states: States) {
    forall a :: a in states ==> Reaches(Protocol.START, Protocol.Next, states[a])
  }

  /** Nonces are drawn once. */
  predicate NoncesApart(states: States) {
    forall a, b, n :: a in states && b in states && n in states[a].world.used && n in states[b].world.used ==> a == b
  }

  /** The store holds exactly the arenas, journals and trees of the given states. */
  ghost predicate IsStoreOf(s: Store, states: States) {
    && (forall a :: a in s.arenas <==> a in states && states[a].world.original.Some?)
    && (forall a :: a in s.arenas ==> s.arenas[a] == states[a].world.original.value)
    && (forall n :: n in s.journals ==> s.journals[n].arena in states && n in states[s.journals[n].arena].world.journals)
    && (forall a, n :: a in states && n in states[a].world.journals ==>
          n in s.journals && s.journals[n] == Record(a, states[a].world.journals[n]))
    && (forall n :: n in s.trash ==> exists a :: a in states && n in states[a].world.trash)
    && (forall a, n :: a in states && n in states[a].world.trash ==>
          n in s.trash && s.trash[n] == states[a].world.trash[n].pieces)
  }

  /** What every run guarantees about one arena, as far as the pass depends on it. */
  predicate KeepsApart(w: Protocol.World) {
    && w.journals.Keys <= w.used && w.trash.Keys <= w.used
    && (w.original.Some? && w.original.value.retirementId.Some? ==>
          w.original.value.retirementId.value in w.used && w.original.value.retirementId.value !in w.trash)
  }

  lemma ReachedKeepsApart(s: Protocol.State)
    requires Reaches(Protocol.START, Protocol.Next, s)
    ensures KeepsApart(s.world)
  {
    hide Protocol.Next;
    var states: seq<Protocol.State>, events: seq<Protocol.Event> :|
      IsRunOf(Protocol.START, Protocol.Next, states, events) && states[|states| - 1] == s;
    Theorems.RunKeepsInv(states, events, |states| - 1);
    assert forall n :: n in s.world.trash ==> Proof.TrashOk(s.world, n);
  }

  /** A journal belongs to the arena that drew its nonce. */
  lemma JournalOfItsArena(s: Store, states: States, n: Id, a: Id)
    requires NoncesApart(states) && IsStoreOf(s, states) && n in s.journals
    requires forall b :: b in states ==> KeepsApart(states[b].world)
    requires a in states && n in states[a].world.used
    ensures s.journals[n].arena == a
  {
    assert n in states[s.journals[n].arena].world.used;
  }

  /** Every store made of reached states meets the assumption of the theorems about the pass. */
  lemma StoresOfRunsAreReachable(s: Store, states: States)
    requires AllReached(states) && NoncesApart(states) && IsStoreOf(s, states)
    ensures Reachable(s)
  {
    hide Reaches, NoncesApart;
    forall a | a in states
      ensures KeepsApart(states[a].world)
    {
      ReachedKeepsApart(states[a]);
    }
    forall n | n in s.journals && n in s.trash
      ensures !MatchesRecord(s, n)
    {
      var a :| a in states && n in states[a].world.trash;
      JournalOfItsArena(s, states, n, a);
    }
    forall a | a in s.arenas && s.arenas[a].retirementId.Some? && s.arenas[a].retirementId.value in s.journals
      ensures s.journals[s.arenas[a].retirementId.value].arena == a
    {
      JournalOfItsArena(s, states, s.arenas[a].retirementId.value, a);
    }
  }

  /**
   The pass is not idempotent on a store that runs do reach: the first pass drops the arena with
   journal 2 and leaves journal 1 with neither arena nor tree, and the second pass drops that.
   */
  lemma AStrandedJournalNeedsASecondPass()
    ensures exists s: Store, states: States ::
      && AllReached(states) && NoncesApart(states) && IsStoreOf(s, states) && Stranded(s, {})
      && forall order, again :: ListsJournals(order, s) && ListsJournals(again, ReconcilePass(s, {}, order)) ==>
           var after := ReconcilePass(s, {}, order);
           && 1 in after.journals && after.journals[1].arena !in after.arenas && 1 !in after.trash
           && ReconcilePass(after, {}, again) != after
  {
    hide Reaches;
    var state := Examples.TwoRetirementsCanBeInterrupted();
    var w := state.world;
    var states := map[7 := state];
    var s := Store(map[7 := w.original.value], map[], map[1 := Record(7, w.journals[1]), 2 := Record(7, w.journals[2])]);
    assert IsStoreOf(s, states);
    assert Stays(s, {}, 1) && Resumable(s, {}, 2) && s.journals[1].arena == s.journals[2].arena;
    StoresOfRunsAreReachable(s, states);
    forall order, again | ListsJournals(order, s) && ListsJournals(again, ReconcilePass(s, {}, order))
      ensures var after := ReconcilePass(s, {}, order);
        && 1 in after.journals && after.journals[1].arena !in after.arenas && 1 !in after.trash
        && ReconcilePass(after, {}, again) != after
    {
      WhatAPassLeaves(s, {}, order);
      PassIsIdempotentExactlyWhenNothingIsStranded(s, {}, order, again);
    }
    assert Stranded(s, {}) && AllReached(states) && NoncesApart(states);
  }
}
