/**
 What a cleanup does with a row that was fetched before other items were cleaned.

 The pass fetches every imported row and then cleans them one by one, each by the row it was
 handed. Everywhere else here a turn reads its row when it starts. This is the difference: what
 other writers must have done in between for a cleanup to remove what it should have kept.
 */
module ArrFetched {
  import opened Common
  import opened ArrLifecycle
  import opened ArrSafety
  import opened ArrOutcomes
  import opened ArrDebts

  /** What a cleanup holds against a row: its source is owed, or its content is corrupt. */
  predicate Withheld(row: Row) { row.debt.Some? || row.state == Corrupt }

  /** The item may lose its local bytes. */
  predicate Cleanable(c: Cell) { c.row.Some? && c.row.value.status == Imported && !Withheld(c.row.value) }

  predicate RemovesLocal(steps: seq<Step>) { exists e :: e in steps && e.LocalRemoved? }

  /** While other items are cleaned, only other writers touch item `i`. */
  predicate Meanwhile(plays: seq<Play>, i: ItemId) { forall p :: p in plays ==> p.id != i || p.turn.Outside? }

  predicate Outsider(p: Play, i: ItemId) { p.id == i && p.turn.Outside? }
  predicate OwesAfter(p: Play, i: ItemId) { Outsider(p, i) && p.turn.step.DebtRecorded? }
  predicate OwesNoMore(p: Play, i: ItemId) { Outsider(p, i) && p.turn.step.DebtDropped? }
  predicate Edits(p: Play, i: ItemId) { Outsider(p, i) && p.turn.step.RowEdited? }
  predicate Corrupts(p: Play, i: ItemId) { Edits(p, i) && p.turn.step.state == Corrupt }
  predicate Removes(p: Play, i: ItemId) { Outsider(p, i) && p.turn.step.RowRemoved? }

  /** A debt was recorded that nobody dropped since. */
  predicate LateDebt(plays: seq<Play>, i: ItemId) {
    exists m :: 0 <= m < |plays| && OwesAfter(plays[m], i) && forall n :: m < n < |plays| ==> !OwesNoMore(plays[n], i)
  }

  /** The last edit of the row made it corrupt. */
  predicate LateCorruption(plays: seq<Play>, i: ItemId) {
    exists m :: 0 <= m < |plays| && Corrupts(plays[m], i) && forall n :: m < n < |plays| ==> !Edits(plays[n], i)
  }

  predicate LateRemoval(plays: seq<Play>, i: ItemId) { exists m :: 0 <= m < |plays| && Removes(plays[m], i) }

  /** One more play of somebody else. */
  lemma OneMoreWrite(w: World, p: Play, i: ItemId)
    requires CanPlay(w, p) && Meanwhile([p], i) && i in w.cells
    ensures var (c, c') := (CellAt(w, i), CellAt(Played(w, p), i));
            && i in Played(w, p).cells && (c'.row.Some? <==> c.row.Some? && !Removes(p, i))
            && (c'.row.Some? && c.row.value.status == Imported ==>
                  && c'.row.value.status == Imported
                  && (c'.row.value.debt.Some? <==> OwesAfter(p, i) || (c.row.value.debt.Some? && !OwesNoMore(p, i)))
                  && (c'.row.value.state == Corrupt
                      <==> Corrupts(p, i) || (c.row.value.state == Corrupt && !Edits(p, i))))
  {
    assert p in [p];
    if p.id == i {
      OneEffect(CellAt(w, i), p.turn.step);
    }
  }

  lemma {:induction false} LastPlay(w: World, plays: seq<Play>)
    requires Runs(w, plays) && plays != []
    ensures var (before, p) := (plays[..|plays| - 1], plays[|plays| - 1]);
            Runs(w, before) && CanPlay(After(w, before), p) && After(w, plays) == Played(After(w, before), p)
    decreases |plays|
  {
    if |plays| > 1 {
      LastPlay(Played(w, plays[0]), plays[1..]);
      assert plays[1..][..|plays| - 2] == plays[..|plays| - 1][1..];
    }
  }

  /** How one more play moves what is read off the plays. */
  lemma LateNext(plays: seq<Play>, p: Play, i: ItemId)
    ensures LateDebt(plays + [p], i) <==> OwesAfter(p, i) || (LateDebt(plays, i) && !OwesNoMore(p, i))
    ensures LateCorruption(plays + [p], i) <==> Corrupts(p, i) || (LateCorruption(plays, i) && !Edits(p, i))
    ensures LateRemoval(plays + [p], i) <==> Removes(p, i) || LateRemoval(plays, i)
  {
    var more := plays + [p];
    assert more[|plays|] == p && forall m :: 0 <= m < |plays| ==> more[m] == plays[m];
  }

  /** What has become of a cleanable row, read off what others did to it meanwhile. */
  lemma {:induction false} CleanableUntil(w: World, plays: seq<Play>, i: ItemId)
    requires Runs(w, plays) && Meanwhile(plays, i) && Cleanable(CellAt(w, i)) && i in w.cells
    ensures i in After(w, plays).cells
    ensures var c := CellAt(After(w, plays), i);
            && (c.row.Some? <==> !LateRemoval(plays, i))
            && (c.row.Some? ==> && c.row.value.status == Imported
                                && (c.row.value.debt.Some? <==> LateDebt(plays, i))
                                && (c.row.value.state == Corrupt <==> LateCorruption(plays, i)))
    decreases |plays|
  {
    if plays != [] {
      var (before, p) := (plays[..|plays| - 1], plays[|plays| - 1]);
      LastPlay(w, plays);
      CleanableUntil(w, before, i);
      assert before + [p] == plays;
      LateNext(before, p, i);
      OneMoreWrite(After(w, before), p, i);
    }
  }

  lemma RemovalNeedsCleanableFetch(row: Row, id: ItemId, activeJob: bool, disk: DiskAnswer, at: Instant)
    ensures RemovesLocal(CleanupAsFetched(row, id, activeJob, disk, at))
            <==> !Withheld(row) && !activeJob && (disk == RemovalFails || disk == RemovalWorks)
  {
    var steps := CleanupAsFetched(row, id, activeJob, disk, at);
    if !Withheld(row) && !activeJob {
      if disk == RemovalFails || disk == RemovalWorks {
        assert steps[1].LocalRemoved? && steps[1] in steps;
      }
    }
  }

  /** Whatever the disk and the job table answer, a cleanup by the fetched row removes no bytes it should keep. */
  ghost predicate RemovesOnlyCleanable(fetched: Row, i: ItemId, c: Cell) {
    forall job, disk, at :: RemovesLocal(CleanupAsFetched(fetched, i, job, disk, at)) ==> Cleanable(c)
  }

  /**
   An item is cleaned by the row fetched at `w`, after others wrote what they wrote. It loses bytes
   it should have kept exactly when the row as fetched could be cleaned and meanwhile a debt was
   recorded that nobody dropped, the last edit made it corrupt, or the row was removed.
   */
  lemma FetchedRowIsEnoughExactlyWhen(w: World, plays: seq<Play>, i: ItemId)
    requires Runs(w, plays) && Meanwhile(plays, i) && CellAt(w, i).row.Some?
             && CellAt(w, i).row.value.status == Imported
    ensures RemovesOnlyCleanable(CellAt(w, i).row.value, i, CellAt(After(w, plays), i))
            <==> Withheld(CellAt(w, i).row.value)
                 || !(LateDebt(plays, i) || LateCorruption(plays, i) || LateRemoval(plays, i))
  {
    var fetched := CellAt(w, i).row.value;
    forall job, disk, at
      ensures RemovesLocal(CleanupAsFetched(fetched, i, job, disk, at))
              <==> !Withheld(fetched) && !job && (disk == RemovalFails || disk == RemovalWorks)
    {
      RemovalNeedsCleanableFetch(fetched, i, job, disk, at);
    }
    if !Withheld(fetched) {
      assert RemovesLocal(CleanupAsFetched(fetched, i, false, RemovalWorks, 0));
      CleanableUntil(w, plays, i);
    }
  }

  /** Where the fetched row is enough, and could be cleaned, the turn is the one the rest of the model takes. */
  lemma FetchedRowGivesTheSameTurn(w: World, plays: seq<Play>, i: ItemId, activeJob: bool, disk: DiskAnswer,
                                   at: Instant)
    requires Runs(w, plays) && Meanwhile(plays, i) && Cleanable(CellAt(w, i))
    requires !(LateDebt(plays, i) || LateCorruption(plays, i) || LateRemoval(plays, i))
    ensures var (t, c) := (Cleanup(activeJob, disk, at), CellAt(After(w, plays), i));
            && Enabled(c, i, t)
            && CleanupAsFetched(CellAt(w, i).row.value, i, activeJob, disk, at) == TurnSteps(c, i, t)
  {
    CleanableUntil(w, plays, i);
  }

  // --- It happens ------------------------------------------------------------------------------------------

  /** A cleanup by a row fetched before the debt was recorded: the local copy goes first, and the item reads as
      cleaned with a debt the sweep will still pay. */
  lemma OwedItemIsCleaned(c: Cell, fetched: Row, id: ItemId)
    requires c.row.Some? && c.row.value.debt.Some? && !c.row.value.remoteDeleted && !Withheld(fetched)
    ensures var steps := CleanupAsFetched(fetched, id, false, RemovalWorks, 0);
            && RemovesLocal(steps)
            && var row := Effects(c, steps).row;
               row.Some? && row.value.status == Cleaned && SweepWants(row.value)
  {
    RemovalNeedsCleanableFetch(fetched, id, false, RemovalWorks, 0);
    CleanupTailEffects(Effect(c, SuppressionSet(id)), id, false, RemovalWorks, 0);
  }

  /** While one item's bytes are being removed the debt of another is recorded; that one is cleaned all the same. */
  lemma LateDebtIsOverlooked(i: ItemId, j: ItemId, row: Row, evidence: VerifyEvidence) returns (plays: seq<Play>)
    requires i != j && row.status == Imported && !Withheld(row) && !row.remoteDeleted
    ensures plays == [Play(j, Cleanup(false, RemovalWorks, 0))] + [Play(i, Outside(DebtRecorded(i, evidence)))]
    ensures var w := Start(map[i := row, j := row]);
            && Runs(w, plays) && Meanwhile(plays, i)
            && CellAt(After(w, plays), i) == CellOf(row.(debt := Some(evidence)))
            && RemovesLocal(CleanupAsFetched(CellAt(w, i).row.value, i, false, RemovalWorks, 0))
  {
    var w := Start(map[i := row, j := row]);
    var p := Play(j, Cleanup(false, RemovalWorks, 0));
    assert Runs(Played(w, p), [p][1..]) && After(w, [p]) == Played(w, p);
    plays := OwesAnew(w, [p], i, evidence);
    OwedItemIsCleaned(CellOf(row.(debt := Some(evidence))), row, i);
  }
}
