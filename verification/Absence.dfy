/**
 One item row as the scan engine reads and writes it, and the rules that decide what an absence
 means: the grace period for a local copy that is gone, and the resting state of a row that has
 left both trees.
 */
module Absence {
  import opened Common

  type Instant = int

  const DEFAULT_GRACE_S := 600

  /** The columns a scan reads or writes. `settling` is `substate = 'settling'`. */
  datatype ItemRow = ItemRow(
    state: ItemState, settling: bool, firstMissingAt: Option<Instant>, downloadedAt: Option<Instant>,
    remoteSize: Option<nat>, localSize: Option<nat>, remoteDeleted: bool, arrCleaned: bool)

  /** The readings a comparison of the two trees can give. */
  type Structural = s: ItemState | s in {RemoteOnly, LocalOnly, Partial, Downloaded, Excluded} witness RemoteOnly

  predicate PostprocessOutcome(s: ItemState) { s in {Verified, Corrupt, Extracted, ExtractFailed} }

  /** States that assert the item's bytes were all here. */
  predicate AssertsComplete(s: ItemState) {
    s == Downloaded || s == Verifying || s == Extracting || PostprocessOutcome(s)
  }

  predicate Sticky(s: ItemState) { AssertsComplete(s) || s == RemovedLocal }

  predicate TerminalRemoved(s: ItemState) { s == RemovedLocal || s == RemovedBoth }

  predicate GraceOver(firstMissing: Instant, now: Instant) { now - firstMissing >= DEFAULT_GRACE_S }

  /** `is_local_shrink` */
  predicate LocalShrink(prev: ItemState, structural: ItemState, before: Option<nat>, size: Option<nat>) {
    structural == Partial && AssertsComplete(prev) && before.Some? && size == before
  }

  /** `resolve_absence`: the state and the missing-since mark to keep, or `None` to trust the reading. */
  function ResolveAbsence(prev: ItemState, firstMissing: Option<Instant>, structural: ItemState, mountOk: bool,
                          now: Instant,
                          before: Option<nat>, size: Option<nat>): Option<(ItemState, Option<Instant>)>
  {
    if LocalShrink(prev, structural, before, size) then
      if !mountOk then Some((prev, firstMissing))
      else if firstMissing.None? then Some((prev, Some(now)))
      else if GraceOver(firstMissing.value, now) then None
      else Some((prev, firstMissing))
    else if structural != RemoteOnly || !Sticky(prev) then None
    else if prev == RemovedLocal || !mountOk then Some((prev, firstMissing))
    else if firstMissing.None? then Some((prev, Some(now)))
    else if GraceOver(firstMissing.value, now) then Some((RemovedLocal, firstMissing))
    else Some((prev, firstMissing))
  }

  /** `resolve_vanished` */
  function ResolveVanished(prev: ItemState): Option<ItemState> {
    if prev == Partial || prev == LocalOnly then Some(RemovedBoth) else None
  }

  /** `outcome_survives_rescan` */
  predicate OutcomeSurvives(prev: ItemState, structural: ItemState, remoteDeleted: bool) {
    PostprocessOutcome(prev) && (structural == Downloaded || (structural == LocalOnly && remoteDeleted))
  }

  /** `reconsider_removed_state` */
  function ReconsiderRemoved(prev: ItemState, remotePresent: bool, localPresent: bool,
                             structural: ItemState): Option<ItemState> {
    if !TerminalRemoved(prev) || (!remotePresent && !localPresent) then None
    else if !localPresent then Some(RemovedLocal)
    else if !remotePresent then Some(LocalOnly)
    else Some(structural)
  }
}
