/**
 What the sweep leaves in each row that has left both trees, and which of them the page still shows.

 Everything is read off the row as it was, the registry, and the set the sweep returns; the rules
 that decide a row are not named here.
 */
module SweptRows {
  import opened Common
  import opened Absence
  import opened PathOrder
  import opened VanishedSweep

  /** States that say the item's bytes were all here. */
  const COMPLETE := {Downloaded, Verifying, ItemState.Verified, Corrupt, Extracting, Extracted, ExtractFailed}

  /** The row had a complete copy, or the one the poller removed once it was imported. */
  predicate WasComplete(row: ItemRow) { row.state in COMPLETE || (row.state == LocalOnly && row.arrCleaned) }

  /** The mark is ten minutes old and the mount is healthy. */
  predicate TimeIsUp(row: ItemRow, mountOk: bool, now: Instant) {
    mountOk && row.firstMissingAt.Some? && now - row.firstMissingAt.value >= 600
  }

  /** The mark a row keeps while its time is not up: it is set once, and only over a healthy mount. */
  function Marked(row: ItemRow, mountOk: bool, now: Instant): Option<Instant> {
    if mountOk && row.firstMissingAt.None? then Some(now) else row.firstMissingAt
  }

  /** A row at rest in a new state: nothing of it is on either side. */
  function Resting(row: ItemRow, state: ItemState, missing: Option<Instant>): ItemRow {
    row.(state := state, firstMissingAt := missing, remoteSize := None, localSize := None)
  }

  /** A vanished row that is no spent archive. */
  lemma VanishedRowRests(w: Sweep, vanished: set<string>, found: set<string>, rows: map<string, ItemRow>,
                         shown: set<string>, rows': map<string, ItemRow>, purged: set<string>, p: string)
    requires vanished <= w.previous.Keys && vanished <= rows.Keys && vanished !! found
    requires Swept(w, vanished, found, rows, shown, rows', purged)
    requires p in vanished && p !in w.archives
    ensures p in rows' && p !in purged
    ensures var row := w.previous[p];
            if WasComplete(row) then
              var up := TimeIsUp(row, w.mountOk, w.now);
              && rows'[p].state
                 == (if up then RemovedBoth else if row.state == LocalOnly then Downloaded else row.state)
              && rows'[p] == Resting(row, rows'[p].state, Marked(row, w.mountOk, w.now))
              && (p in shown <==> !up)
            else if row.state == Partial || row.state == LocalOnly then
              rows'[p] == Resting(row, RemovedBoth, None) && p !in shown
            else if row.state == RemovedLocal then
              rows'[p] == Resting(row, RemovedBoth, row.firstMissingAt) && p !in shown
            else
              rows'[p] == row && p !in shown
  {
  }

  /** A vanished spent archive: it rests as long as its release is shown, and on its own for good. */
  lemma VanishedArchiveRests(w: Sweep, vanished: set<string>, found: set<string>, rows: map<string, ItemRow>,
                             shown: set<string>, rows': map<string, ItemRow>, purged: set<string>, p: string)
    requires vanished <= w.previous.Keys && vanished <= rows.Keys && vanished !! found
    requires Swept(w, vanished, found, rows, shown, rows', purged)
    requires p in vanished && p in w.archives
    ensures p in rows'
    ensures if '/' !in p || Top(p) in shown then
              rows'[p] == Resting(w.previous[p], Excluded, None) && p in shown && p !in purged
            else
              rows'[p] == Resting(w.previous[p], RemovedBoth, None) && p !in shown && p in purged
  {
  }

  /** The sweep adds no row, takes none away, and leaves alone what did not vanish. */
  lemma OtherRowsStand(w: Sweep, vanished: set<string>, found: set<string>, rows: map<string, ItemRow>,
                       shown: set<string>, rows': map<string, ItemRow>, purged: set<string>, p: string)
    requires vanished <= w.previous.Keys && vanished <= rows.Keys && vanished !! found
    requires Swept(w, vanished, found, rows, shown, rows', purged) && p !in vanished
    ensures Get(rows', p) == Get(rows, p) && (p in shown <==> p in found) && p !in purged
  {
  }
}
