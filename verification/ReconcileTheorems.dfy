/**
 What a reconciliation pass leaves behind, whatever leases are held during it, and exactly when a second
 pass changes nothing.
 */
module ReconcileTheorems {
  import opened Prelude
  import opened ArenaManifests
  import opened Reconcile

  /**
   What every reachable store satisfies: a retired tree never coexists with an arena matching its
   journal, and a nonce is only ever used for one arena.
   */
  ghost predicate Reachable(s: Store) {
    && (forall n :: n in s.journals && n in s.trash ==> !MatchesRecord(s, n))
    && (forall a :: a in s.arenas && s.arenas[a].retirementId.Some? && s.arenas[a].retirementId.value in s.journals ==>
          s.journals[s.arenas[a].retirementId.value].arena == a)
  }

  /** A journal whose arena is in place, not leased, and unchanged since the intent: its retirement is resumed. */
  predicate Resumable(s: Store, held: set<Id>, n: Id) {
    n in s.journals && n !in s.trash && MatchesRecord(s, n) && s.journals[n].arena !in held
  }

  /**
   A journal that stays when its turn comes: its arena is leased and there is something to wait for, or its
   arena is in place and changed since.
   */
  ghost predicate Stays(s: Store, held: set<Id>, n: Id) {
    && n in s.journals
    && (n in s.trash ==> s.journals[n].arena in held)
    && (n !in s.trash ==>
          && s.journals[n].arena in s.arenas && (s.journals[n].arena in held || !MatchesRecord(s, n))
          && forall k: Id :: k < n && Resumable(s, held, k) ==> s.journals[k].arena != s.journals[n].arena)
  }

  /** A journal that stays comes before the journal that resumes the retirement of the same arena. */
  ghost predicate Stranded(s: Store, held: set<Id>) {
    exists n, k :: Stays(s, held, n) && Resumable(s, held, k) && s.journals[n].arena == s.journals[k].arena
  }

  /** The store once the journals in `done` have been handled, in closed form. */
  ghost function Processed(s: Store, held: set<Id>, done: set<Id>): Store {
    Store(
      map a | a in s.arenas && (forall k :: k in done && Resumable(s, held, k) ==> s.journals[k].arena != a) :: s.arenas[a],
      map n | n in s.trash && !(n in done && n in s.journals && s.journals[n].arena !in held) :: s.trash[n],
      map n | n in s.journals && (n in done ==> Stays(s, held, n)) :: s.journals[n])
  }

  /** Adding one journal to those handled changes only its own arena, tree and journal. */
  lemma ProcessedMore(s: Store, held: set<Id>, done: set<Id>, n: Id)
    requires n in s.journals && n !in done
    ensures var at, after := Processed(s, held, done), Processed(s, held, done + {n});
      && after.trash == (if s.journals[n].arena in held then at.trash else at.trash - {n})
      && after.journals == (if Stays(s, held, n) then at.journals else at.journals - {n})
      && after.arenas == (if Resumable(s, held, n) then at.arenas - {s.journals[n].arena} else at.arenas)
  {
    ProcessedArenas(s, held, done, n);
    ProcessedTrash(s, held, done, n);
  }

  lemma ProcessedArenas(s: Store, held: set<Id>, done: set<Id>, n: Id)
    requires n in s.journals && n !in done
    ensures Processed(s, held, done + {n}).arenas
         == if Resumable(s, held, n) then Processed(s, held, done).arenas - {s.journals[n].arena}
            else Processed(s, held, done).arenas
  {
    hide Stays;
  }

  lemma ProcessedTrash(s: Store, held: set<Id>, done: set<Id>, n: Id)
    requires n in s.journals && n !in done
    ensures Processed(s, held, done + {n}).trash
         == if s.journals[n].arena in held then Processed(s, held, done).trash else Processed(s, held, done).trash - {n}
    ensures Processed(s, held, done + {n}).journals
         == if Stays(s, held, n) then Processed(s, held, done).journals else Processed(s, held, done).journals - {n}
  {
    hide Stays, Resumable;
  }

  /** What the pass sees when a journal's turn comes. */
  lemma SeenAtItsTurn(s: Store, held: set<Id>, done: set<Id>, n: Id)
    requires Reachable(s) && n in s.journals
    requires forall k :: k in done <==> k in s.journals && k < n
    ensures var at, a := Processed(s, held, done), s.journals[n].arena;
      && n in at.journals && at.journals[n] == s.journals[n]
      && (n in at.trash <==> n in s.trash)
      && (a in at.arenas ==> a in s.arenas && at.arenas[a] == s.arenas[a])
      && (n !in s.trash && a in at.arenas && (a in held || !MatchesRecord(s, n)) <==> n !in s.trash && Stays(s, held, n))
      && (a in at.arenas && MatchesRecord(s, n) <==> MatchesRecord(s, n))
  {
  }

  lemma ProcessedStep(s: Store, held: set<Id>, done: set<Id>, n: Id)
    requires Reachable(s) && n in s.journals
    requires forall k :: k in done <==> k in s.journals && k < n
    ensures n in Processed(s, held, done).journals
    ensures ReconcileRecord(Processed(s, held, done), held, n).0 == Processed(s, held, done + {n})
  {
    SeenAtItsTurn(s, held, done, n);
    ProcessedMore(s, held, done, n);
    assert n in s.trash ==> (Stays(s, held, n) <==> s.journals[n].arena in held);
    hide Processed, Stays;
    var at := Processed(s, held, done);
    assert MatchesRecord(at, n) <==> MatchesRecord(s, n);
    assert Resumable(s, held, n) <==> n !in s.trash && MatchesRecord(s, n) && s.journals[n].arena !in held;
  }

  ghost function Handled(order: seq<Id>, i: nat): set<Id>
    requires i <= |order|
  {
    set n | n in order[..i]
  }

  lemma {:induction false} ProcessedAll(s: Store, held: set<Id>, order: seq<Id>, i: nat)
    requires Reachable(s) && ListsJournals(order, s) && i <= |order|
    requires forall k :: i <= k < |order| ==> order[k] in Processed(s, held, Handled(order, i)).journals
    ensures ReconcileRecords(Processed(s, held, Handled(order, i)), held, order[i..]) == Processed(s, held, s.journals.Keys)
    decreases |order| - i
  {
    if i == |order| {
      assert order[..i] == order;
      assert Handled(order, i) == s.journals.Keys;
    } else {
      assert order[..i + 1] == order[..i] + [order[i]];
      assert Handled(order, i + 1) == Handled(order, i) + {order[i]};
      HandledAreSmaller(s, order, i);
      NotHandledAreListed(s, held, order, i + 1);
      ProcessedStep(s, held, Handled(order, i), order[i]);
      hide Processed, Reachable, Handled, ReconcileRecord;
      assert order[i..][0] == order[i] && order[i..][1..] == order[i + 1..];
      ProcessedAll(s, held, order, i + 1);
    }
  }

  lemma NotHandledAreListed(s: Store, held: set<Id>, order: seq<Id>, i: nat)
    requires ListsJournals(order, s) && i <= |order|
    ensures forall k :: i <= k < |order| ==> order[k] in Processed(s, held, Handled(order, i)).journals
  {
    hide Stays;
    forall k | i <= k < |order|
      ensures order[k] in Processed(s, held, Handled(order, i)).journals
    {
      assert order[k] !in Handled(order, i);
    }
  }

  lemma HandledAreSmaller(s: Store, order: seq<Id>, i: nat)
    requires ListsJournals(order, s) && i < |order|
    ensures forall k :: k in Handled(order, i) <==> k in s.journals && k < order[i]
  {
    forall k | k in s.journals && k < order[i]
      ensures k in Handled(order, i)
    {
      var j :| 0 <= j < |order| && order[j] == k;
      assert order[..i][j] == k;
    }
  }

  /** The store after the whole pass, in closed form. */
  lemma PassInClosedForm(s: Store, held: set<Id>, order: seq<Id>)
    requires Reachable(s) && ListsJournals(order, s)
    ensures ReconcilePass(s, held, order) == RepairIntents(Processed(s, held, s.journals.Keys), held)
  {
    assert Handled(order, 0) == {};
    assert Processed(s, held, {}) == s;
    assert order[0..] == order;
    ProcessedAll(s, held, order, 0);
  }

  /** The raw facts behind the pass: what matches, and what the repair does to each arena. */
  lemma RepairByFields(s: Store, held: set<Id>)
    ensures var after := RepairIntents(s, held);
      && after.trash == s.trash && after.journals == s.journals && after.arenas.Keys == s.arenas.Keys
      && forall a :: a in s.arenas ==>
           if s.arenas[a].retirementId.Some? && s.arenas[a].retirementId.value !in s.journals && a !in held
           then IntentIsGone(s.arenas[a], after.arenas[a])
           else after.arenas[a] == s.arenas[a]
  {
  }

  /**
   A retirement is resumed exactly when its arena is in place and not leased, with this intent at the
   journal's revision, and nothing of it is in trash.
   */
  lemma ResumableByFields(s: Store, held: set<Id>, n: Id)
    ensures Resumable(s, held, n)
            <==> n in s.journals && n !in s.trash
                 && var a, revision := s.journals[n].arena, s.journals[n].revision;
                    && a in s.arenas && a !in held
                    && s.arenas[a].retirementId == Some(n) && s.arenas[a].revision == revision
  {
  }

  /**
   What a pass leaves. Journals: exactly those that stay, unchanged. Trash: the trees without a journal,
   and those whose arena is leased. Arenas: all but those whose retirement was resumed; of these, those
   that are not leased and whose intent has no journal left are rid of it, and all others are as they were.
   */
  lemma WhatAPassLeaves(s: Store, held: set<Id>, order: seq<Id>)
    requires Reachable(s) && ListsJournals(order, s)
    ensures var after := ReconcilePass(s, held, order);
      && (forall n :: n in after.journals <==> Stays(s, held, n))
      && (forall n :: n in after.journals ==> after.journals[n] == s.journals[n])
      && (forall n :: n in after.trash <==> n in s.trash && (n in s.journals ==> s.journals[n].arena in held))
      && (forall n :: n in after.trash ==> after.trash[n] == s.trash[n])
      && (forall a :: a in after.arenas <==>
            a in s.arenas && forall k :: Resumable(s, held, k) ==> s.journals[k].arena != a)
      && (forall a :: a in after.arenas ==>
            var intent := s.arenas[a].retirementId;
            if intent.Some? && intent.value !in after.journals && a !in held
            then IntentIsGone(s.arenas[a], after.arenas[a])
            else after.arenas[a] == s.arenas[a])
      && Reachable(after)
  {
    PassInClosedForm(s, held, order);
    var middle := Processed(s, held, s.journals.Keys);
    RepairByFields(middle, held);
    ProcessedByFields(s, held);
    WhatIsLeftIsReachable(s, held, middle, RepairIntents(middle, held));
    hide Stays, ReconcilePass, Processed, RepairIntents, Resumable, IntentIsGone, Reachable, ListsJournals;
  }

  /** Dropping journals, trees and arenas, and clearing intents, keeps what every reachable store satisfies. */
  lemma WhatIsLeftIsReachable(s: Store, held: set<Id>, middle: Store, after: Store)
    requires Reachable(s) && after == RepairIntents(middle, held)
    requires forall n :: n in middle.journals ==> n in s.journals && middle.journals[n] == s.journals[n]
    requires forall n :: n in middle.trash ==> n in s.trash
    requires forall a :: a in middle.arenas ==> a in s.arenas && middle.arenas[a] == s.arenas[a]
    ensures Reachable(after)
  {
    RepairByFields(middle, held);
    hide RepairIntents, Advances;
  }

  lemma ProcessedByFields(s: Store, held: set<Id>)
    ensures var middle := Processed(s, held, s.journals.Keys);
      && (forall n :: n in middle.journals <==> Stays(s, held, n))
      && (forall n :: n in middle.journals ==> middle.journals[n] == s.journals[n])
      && (forall n :: n in middle.trash <==> n in s.trash && (n in s.journals ==> s.journals[n].arena in held))
      && (forall n :: n in middle.trash ==> middle.trash[n] == s.trash[n])
      && (forall a :: a in middle.arenas <==>
            a in s.arenas && forall k :: Resumable(s, held, k) ==> s.journals[k].arena != a)
      && (forall a :: a in middle.arenas ==> middle.arenas[a] == s.arenas[a])
  {
    assert forall n :: Stays(s, held, n) ==> n in s.journals;
    assert forall n :: Resumable(s, held, n) ==> n in s.journals;
    hide Stays, Resumable;
  }

  /** While no lease is held no journalled tree is left, and every journal that is left belongs to a changed arena. */
  lemma WhatAQuietPassLeaves(s: Store, order: seq<Id>)
    requires Reachable(s) && ListsJournals(order, s)
    ensures var after := ReconcilePass(s, {}, order);
      forall n :: n in after.journals ==>
        n in s.journals && n !in after.trash && s.journals[n].arena in s.arenas && !MatchesRecord(s, n)
  {
    WhatAPassLeaves(s, {}, order);
  }

  /** A journal that is left has its arena leased, or in place and changed, exactly when no journal was stranded. */
  lemma LeftJournalsHaveTheirArena(s: Store, held: set<Id>, order: seq<Id>)
    requires Reachable(s) && ListsJournals(order, s)
    ensures var after := ReconcilePass(s, held, order);
      (forall n :: n in after.journals ==>
         after.journals[n].arena in held || (after.journals[n].arena in after.arenas && !MatchesRecord(after, n)))
      <==> !Stranded(s, held)
  {
    WhatAPassLeaves(s, held, order);
    var after := ReconcilePass(s, held, order);
    if Stranded(s, held) {
      var n, k :| Stays(s, held, n) && Resumable(s, held, k) && s.journals[n].arena == s.journals[k].arena;
      assert n in after.journals && after.journals[n].arena !in after.arenas;
    } else {
      forall n | n in after.journals && after.journals[n].arena !in held
        ensures after.journals[n].arena in after.arenas && !MatchesRecord(after, n)
      {
        assert Stays(s, held, n);
      }
    }
  }

  /** After a pass every journal that is left stays, so nothing is resumable. */
  lemma NothingResumableAfterAPass(s: Store, held: set<Id>, order: seq<Id>, n: Id)
    requires Reachable(s) && ListsJournals(order, s)
    ensures !Resumable(ReconcilePass(s, held, order), held, n)
  {
    WhatAPassLeaves(s, held, order);
  }

  /** The next pass finds no lost intent: every intent still recorded has its journal, now and after. */
  lemma IntentsAreSettled(s: Store, held: set<Id>, order: seq<Id>, again: seq<Id>)
    requires Reachable(s) && ListsJournals(order, s) && ListsJournals(again, ReconcilePass(s, held, order))
    ensures var after, next := ReconcilePass(s, held, order), ReconcilePass(ReconcilePass(s, held, order), held, again);
      forall a :: a in after.arenas && a in next.arenas ==> next.arenas[a] == after.arenas[a]
  {
    var after, next := ReconcilePass(s, held, order), ReconcilePass(ReconcilePass(s, held, order), held, again);
    WhatAPassLeaves(s, held, order);
    WhatAPassLeaves(after, held, again);
    forall a | a in after.arenas && a in next.arenas
      ensures next.arenas[a] == after.arenas[a]
    {
      var id := after.arenas[a].retirementId;
      if id.Some? && id.value in after.journals && a !in held {
        assert after.journals[id.value].arena == a;
        forall k
          ensures !Resumable(after, held, k)
        {
          NothingResumableAfterAPass(s, held, order, k);
        }
        assert Stays(s, held, id.value) && id.value !in after.trash;
        assert Stays(after, held, id.value);
      }
    }
  }

  lemma StayWithoutResumption(s: Store, held: set<Id>, n: Id)
    requires n in s.journals && forall k :: !Resumable(s, held, k)
    requires s.journals[n].arena !in held ==> n !in s.trash && !MatchesRecord(s, n)
    ensures Stays(s, held, n) <==> s.journals[n].arena in s.arenas || n in s.trash
  {
  }

  /** With nothing resumable a pass keeps every arena and exactly the journals that wait for something. */
  lemma PassWithoutResumption(s: Store, held: set<Id>, order: seq<Id>)
    requires Reachable(s) && ListsJournals(order, s)
    requires forall n :: !Resumable(s, held, n)
    requires forall n :: n in s.journals && s.journals[n].arena !in held ==> n !in s.trash && !MatchesRecord(s, n)
    ensures var after := ReconcilePass(s, held, order);
      && after.arenas.Keys == s.arenas.Keys && after.trash == s.trash
      && after.journals == map n | n in s.journals && (s.journals[n].arena in s.arenas || n in s.trash) :: s.journals[n]
  {
    assert forall n :: Stays(s, held, n) ==> n in s.journals;
    hide Stays, Resumable, ReconcilePass, Reachable, ListsJournals, MatchesRecord, IntentIsGone;
    WhatAPassLeaves(s, held, order);
    var after := ReconcilePass(s, held, order);
    forall n | n in s.journals
      ensures n in after.journals <==> s.journals[n].arena in s.arenas || n in s.trash
    {
      StayWithoutResumption(s, held, n);
    }
    assert forall n :: n in s.trash ==> n in after.trash;
  }

  /** The next pass only drops the journals whose arena is gone. */
  lemma SecondPass(s: Store, held: set<Id>, order: seq<Id>, again: seq<Id>)
    requires Reachable(s) && ListsJournals(order, s) && ListsJournals(again, ReconcilePass(s, held, order))
    ensures var after, next := ReconcilePass(s, held, order), ReconcilePass(ReconcilePass(s, held, order), held, again);
      && next.arenas == after.arenas && next.trash == after.trash
      && next.journals
         == map n | n in after.journals && (after.journals[n].arena in after.arenas || n in after.trash) :: after.journals[n]
  {
    var after := ReconcilePass(s, held, order);
    WhatAPassLeaves(s, held, order);
    forall n
      ensures !Resumable(after, held, n)
    {
      NothingResumableAfterAPass(s, held, order, n);
    }
    IntentsAreSettled(s, held, order, again);
    forall n | n in after.journals && after.journals[n].arena !in held
      ensures n !in after.trash && !MatchesRecord(after, n)
    {
      assert Stays(s, held, n);
    }
    hide ReconcilePass, Stays;
    PassWithoutResumption(after, held, again);
  }

  /**
   The pass is idempotent exactly when no journal was stranded: the sorted order handles a journal that
   stays before the journal that takes its arena away, and only the next pass notices.
   */
  lemma PassIsIdempotentExactlyWhenNothingIsStranded(s: Store, held: set<Id>, order: seq<Id>, again: seq<Id>)
    requires Reachable(s) && ListsJournals(order, s) && ListsJournals(again, ReconcilePass(s, held, order))
    ensures ReconcilePass(ReconcilePass(s, held, order), held, again) == ReconcilePass(s, held, order) <==> !Stranded(s, held)
  {
    var after := ReconcilePass(s, held, order);
    WhatAPassLeaves(s, held, order);
    SecondPass(s, held, order, again);
    var next := ReconcilePass(after, held, again);
    hide ReconcilePass, Reachable, ListsJournals, IntentIsGone;
    if Stranded(s, held) {
      var n, k :| Stays(s, held, n) && Resumable(s, held, k) && s.journals[n].arena == s.journals[k].arena;
      assert n in after.journals && n !in after.trash && after.journals[n].arena !in after.arenas;
      assert n !in next.journals;
    } else {
      forall n | n in after.journals
        ensures after.journals[n].arena in after.arenas || n in after.trash
      {
        assert Stays(s, held, n);
      }
      assert next.journals == after.journals;
    }
  }

  /** Two passes always reach a fixed point. */
  lemma TwoPassesSettle(s: Store, held: set<Id>, first: seq<Id>, second: seq<Id>, third: seq<Id>)
    requires Reachable(s) && ListsJournals(first, s)
    requires ListsJournals(second, ReconcilePass(s, held, first))
    requires ListsJournals(third, ReconcilePass(ReconcilePass(s, held, first), held, second))
    ensures var settled := ReconcilePass(ReconcilePass(s, held, first), held, second);
      ReconcilePass(settled, held, third) == settled
  {
    var after := ReconcilePass(s, held, first);
    WhatAPassLeaves(s, held, first);
    forall k
      ensures !Resumable(after, held, k)
    {
      NothingResumableAfterAPass(s, held, first, k);
    }
    assert !Stranded(after, held);
    hide ReconcilePass;
    PassIsIdempotentExactlyWhenNothingIsStranded(after, held, second, third);
  }
}
