/**
 One reconciliation pass over interrupted retirements, run under the collection lock: every
 retirement journal in path order, then every arena whose retirement intent has no journal.
 `ReconcilePass` is the pass as a function of the store; `TrashStore` runs it step by step.
 The pass is fault free: interruptions are the subject of the arena protocol.
 */
module Reconcile {
  import opened Prelude
  import opened ArenaManifests

  /** A retirement journal: the arena and the revision its manifest carried when it was written. */
  datatype Record = Record(arena: Id, revision: nat)

  /** Arenas in place, retired trees with what is left of them, and retirement journals by nonce. */
  datatype Store = Store(arenas: map<Id, Manifest>, trash: map<Id, nat>, journals: map<Id, Record>)

  datatype Outcome = Repaired | Deleted | Skipped

  predicate MatchesRecord(s: Store, n: Id)
    requires n in s.journals
  {
    var record := s.journals[n];
    record.arena in s.arenas && Matches(s.arenas[record.arena], n, record.revision)
  }

  function DropJournal(s: Store, n: Id): Store {
    s.(journals := s.journals - {n})
  }

  /** `resume_retirement`: rename, delete, drop the journal, or leave everything. */
  function Resumed(s: Store, held: set<Id>, n: Id): (Store, Outcome)
    requires n in s.journals
  {
    if s.journals[n].arena in held || !MatchesRecord(s, n) then (s, Skipped)
    else (DropJournal(s, n).(arenas := s.arenas - {s.journals[n].arena}, trash := s.trash - {n}), Deleted)
  }

  /** `delete_retired`. */
  function DeletedTree(s: Store, held: set<Id>, n: Id): (Store, Outcome)
    requires n in s.journals
  {
    if s.journals[n].arena in held then (s, Skipped)
    else (DropJournal(s, n).(trash := s.trash - {n}), Deleted)
  }

  /** `reconcile_record`: the case analysis over the original and the trash directory. */
  function ReconcileRecord(s: Store, held: set<Id>, n: Id): (r: (Store, Outcome))
    requires n in s.journals
    ensures r.0.journals == if r.1.Skipped? then s.journals else s.journals - {n}
    ensures r.1.Skipped? ==> r.0 == s
  {
    match (s.journals[n].arena in s.arenas, n in s.trash)
    case (false, false) => (DropJournal(s, n), Repaired)
    case (true, false) => Resumed(s, held, n)
    case (false, true) => DeletedTree(s, held, n)
    case (true, true) => if MatchesRecord(s, n) then (s, Skipped) else DeletedTree(s, held, n)
  }

  function ReconcileRecords(s: Store, held: set<Id>, order: seq<Id>): Store
    requires forall i :: 0 <= i < |order| ==> order[i] in s.journals
    requires forall i, j :: 0 <= i < j < |order| ==> order[i] != order[j]
    decreases |order|
  {
    if order == [] then s
    else ReconcileRecords(ReconcileRecord(s, held, order[0]).0, held, order[1..])
  }

  lemma UnfoldRecords(s: Store, held: set<Id>, order: seq<Id>, i: nat)
    requires i < |order| && Ascending(order)
    requires forall k :: i <= k < |order| ==> order[k] in s.journals
    ensures ReconcileRecords(s, held, order[i..])
         == ReconcileRecords(ReconcileRecord(s, held, order[i]).0, held, order[i + 1..])
  {
    hide ReconcileRecord;
    assert order[i..][0] == order[i] && order[i..][1..] == order[i + 1..];
  }

  /** The journals never change a manifest: an arena is kept as it is, or its directory is gone. */
  lemma {:induction false} RecordsKeepManifests(s: Store, held: set<Id>, order: seq<Id>)
    requires Ascending(order) && forall i :: 0 <= i < |order| ==> order[i] in s.journals
    ensures var after := ReconcileRecords(s, held, order);
      after.arenas.Keys <= s.arenas.Keys && forall a :: a in after.arenas ==> after.arenas[a] == s.arenas[a]
    decreases |order|
  {
    if order != [] {
      var next := ReconcileRecord(s, held, order[0]).0;
      assert next.arenas.Keys <= s.arenas.Keys && forall a :: a in next.arenas ==> next.arenas[a] == s.arenas[a];
      hide ReconcileRecord;
      RecordsKeepManifests(next, held, order[1..]);
    }
  }

  lemma NoRecords(s: Store, held: set<Id>, order: seq<Id>)
    requires order == []
    ensures ReconcileRecords(s, held, order) == s
  {
  }

  /** An arena whose intent was written but whose journal never appeared. */
  predicate OrphanedIntent(s: Store, held: set<Id>, a: Id)
    requires a in s.arenas
  {
    s.arenas[a].retirementId.Some? && s.arenas[a].retirementId.value !in s.journals && a !in held
  }

  function ClearedIntent(s: Store, held: set<Id>, a: Id): Manifest
    requires a in s.arenas
  {
    if OrphanedIntent(s, held, a) then Cleared(s.arenas[a], s.arenas[a].retirementId.value).value else s.arenas[a]
  }

  /** `repair_orphaned_intents`. */
  function RepairIntents(s: Store, held: set<Id>): Store {
    s.(arenas := map a | a in s.arenas :: ClearedIntent(s, held, a))
  }

  /** The intent is gone, written as the next revision, and nothing else changed. */
  predicate IntentIsGone(m: Manifest, after: Manifest) {
    && after.retirementId.None? && (m.revision <= U64_MAX ==> Advances(m, after))
    && after == m.(schemaVersion := after.schemaVersion, revision := after.revision, retirementId := None)
  }

  predicate Ascending(order: seq<Id>) {
    forall i, j :: 0 <= i < j < |order| ==> order[i] < order[j]
  }

  /** The journal paths in sorted order. */
  predicate ListsJournals(order: seq<Id>, s: Store) {
    Ascending(order) && (forall i :: 0 <= i < |order| ==> order[i] in s.journals) && (forall n :: n in s.journals ==> n in order)
  }

  /** `reconcile_locked`. */
  function ReconcilePass(s: Store, held: set<Id>, order: seq<Id>): Store
    requires ListsJournals(order, s)
  {
    RepairIntents(ReconcileRecords(s, held, order), held)
  }

  // ----- the pass, step by step -----

  class TrashStore {
    var arenas: map<Id, Manifest>
    var trash: map<Id, nat>
    var journals: map<Id, Record>
    // The arenas whose lock a lease holds for the duration of the pass.
    const held: set<Id>

    function Value(): Store
      reads this
    {
      Store(arenas, trash, journals)
    }

    constructor (s: Store, held: set<Id>)
      ensures Value() == s && this.held == held
    {
      arenas, trash, journals, this.held := s.arenas, s.trash, s.journals, held;
    }

    /** `entry_paths`: the journal names in sorted order. */
    method JournalPaths() returns (order: seq<Id>)
      ensures ListsJournals(order, Value())
    {
      var left := journals.Keys;
      order := [];
      while left != {}
        invariant left <= journals.Keys
        invariant Ascending(order)
        invariant forall i :: 0 <= i < |order| ==> order[i] in journals && order[i] !in left
        invariant forall n :: n in journals ==> n in order || n in left
        invariant forall i, n :: 0 <= i < |order| && n in left ==> order[i] < n
        decreases left
      {
        var least :| least in left;
        var rest := left - {least};
        while rest != {}
          invariant least in left && rest <= left
          invariant forall n :: n in left && n !in rest ==> least <= n
          decreases rest
        {
          var n :| n in rest;
          if n < least {
            least := n;
          }
          rest := rest - {n};
        }
        order := order + [least];
        left := left - {least};
      }
    }

    /** Recursive deletion, one entry at a time. */
    method RemoveTree(n: Id)
      requires n in trash
      modifies this`trash
      ensures trash == old(trash) - {n}
    {
      while trash[n] > 0
        invariant n in trash && trash == old(trash)[n := trash[n]]
        decreases trash[n]
      {
        trash := trash[n := trash[n] - 1];
      }
      trash := trash - {n};
    }

    method RemoveJournal(n: Id)
      modifies this`journals
      ensures journals == old(journals) - {n}
    {
      journals := journals - {n};
    }

    method Resume(n: Id, entries: nat) returns (outcome: Outcome)
      requires n in journals && n !in trash && journals[n].arena in arenas
      modifies this
      ensures (Value(), outcome) == Resumed(old(Value()), held, n)
    {
      var record := journals[n];
      if record.arena in held {
        return Skipped;
      }
      var manifest := arenas[record.arena];
      if !(manifest.retirementId == Some(n) && manifest.revision == record.revision) {
        return Skipped;
      }
      arenas, trash := arenas - {record.arena}, trash[n := entries];
      RemoveTree(n);
      RemoveJournal(n);
      assert trash == old(trash) - {n};
      outcome := Deleted;
    }

    method Delete(n: Id) returns (outcome: Outcome)
      requires n in journals && n in trash
      modifies this
      ensures (Value(), outcome) == DeletedTree(old(Value()), held, n)
    {
      if journals[n].arena in held {
        return Skipped;
      }
      RemoveTree(n);
      RemoveJournal(n);
      outcome := Deleted;
    }

    method ReconcileOne(n: Id, entries: nat) returns (outcome: Outcome)
      requires n in journals
      modifies this
      ensures (Value(), outcome) == ReconcileRecord(old(Value()), held, n)
    {
      var original, trashed := journals[n].arena in arenas, n in trash;
      if !original && !trashed {
        RemoveJournal(n);
        outcome := Repaired;
      } else if original && !trashed {
        outcome := Resume(n, entries);
      } else if !original {
        outcome := Delete(n);
      } else if MatchesRecord(Value(), n) {
        outcome := Skipped;
      } else {
        outcome := Delete(n);
      }
    }

    /** `repair_orphaned_intents`: reread each candidate under its locks before clearing it. */
    method RepairOrphanedIntents() returns (repaired: set<Id>)
      modifies this`arenas
      ensures Value() == RepairIntents(old(Value()), held)
      ensures arenas.Keys == old(arenas.Keys)
      ensures forall a :: a in repaired <==>
        a in old(arenas) && a !in held && old(arenas)[a].retirementId.Some? && old(arenas)[a].retirementId.value !in journals
      ensures forall a :: a in arenas ==>
        if a in repaired then IntentIsGone(old(arenas)[a], arenas[a]) else arenas[a] == old(arenas)[a]
    {
      ghost var before := Value();
      var left := arenas.Keys;
      repaired := {};
      while left != {}
        invariant left <= arenas.Keys == before.arenas.Keys && trash == before.trash && journals == before.journals
        invariant forall a :: a in before.arenas ==>
          arenas[a] == if a in left then before.arenas[a] else ClearedIntent(before, held, a)
        invariant forall a :: a in repaired <==> a in before.arenas && a !in left && OrphanedIntent(before, held, a)
        decreases left
      {
        var a :| a in left;
        left := left - {a};
        var retirement := arenas[a].retirementId;
        if retirement.Some? && retirement.value !in journals && a !in held {
          var current := new ArenaManifest.Load(arenas[a]);
          var cleared := current.ClearRetirement(retirement.value);
          if cleared {
            arenas := arenas[a := current.Value()];
            repaired := repaired + {a};
          }
        }
      }
    }

    /** Every journal in turn; how many entries a resumed tree has does not matter to what is left. */
    method ReconcileInOrder(paths: seq<Id>, entries: nat)
      requires ListsJournals(paths, Value())
      modifies this
      ensures Value() == ReconcileRecords(old(Value()), held, paths)
    {
      hide ReconcileRecord, ReconcileRecords;
      ghost var goal := ReconcileRecords(Value(), held, paths);
      var i := 0;
      assert paths[0..] == paths;
      while i < |paths|
        invariant 0 <= i <= |paths|
        invariant forall k :: i <= k < |paths| ==> paths[k] in journals
        invariant ReconcileRecords(Value(), held, paths[i..]) == goal
      {
        UnfoldRecords(Value(), held, paths, i);
        var outcome := ReconcileOne(paths[i], entries);
        i := i + 1;
      }
      NoRecords(Value(), held, paths[i..]);
    }

    /** `reconcile_locked`. */
    method ReconcileLocked(entries: nat) returns (paths: seq<Id>, repaired: set<Id>)
      modifies this
      ensures ListsJournals(paths, old(Value()))
      ensures Value() == ReconcilePass(old(Value()), held, paths)
      ensures arenas.Keys <= old(arenas.Keys)
      ensures repaired == set a | a in arenas && arenas[a] != old(arenas)[a]
      ensures forall a :: a in repaired ==> a !in held && IntentIsGone(old(arenas)[a], arenas[a])
    {
      hide RepairIntents, ReconcileRecords, Advances;
      paths := JournalPaths();
      RecordsKeepManifests(Value(), held, paths);
      ReconcileInOrder(paths, entries);
      repaired := RepairOrphanedIntents();
    }
  }
}
