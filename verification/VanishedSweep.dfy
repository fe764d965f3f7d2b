/**
 The sweep over rows that have left both trees.

 A spent archive's verdict asks whether its release is still shown, and it asks while the sweep
 is still deciding which releases are. Sorted order makes the answer final when it is given.
 */
module VanishedSweep {
  import opened Common
  import opened Absence
  import opened PathOrder

  predicate HasSlash(p: string) { '/' in p }

  /** `rel_path.partition("/")[0]` */
  function Top(p: string): (t: string)
    ensures t <= p && !HasSlash(t) && (t == p <==> !HasSlash(p)) && (HasSlash(p) ==> t + "/" <= p)
  {
    if p == "" || p[0] == '/' then "" else [p[0]] + Top(p[1..])
  }

  /** What the sweep starts from: the rows as first read, and what this pass has found so far. */
  datatype Sweep = Sweep(previous: map<string, ItemRow>, archives: set<string>, mountOk: bool, now: Instant)

  /** What the sweep makes of a vanished row while `shown` is the set being grown; `None` leaves it alone. */
  function Decide(w: Sweep, shown: set<string>, p: string): (d: Option<(ItemState, Option<Instant>)>)
    requires p in w.previous
  {
    var row := w.previous[p];
    var prev := if row.state == LocalOnly && row.arrCleaned then Downloaded else row.state;
    if p in w.archives then
      if !HasSlash(p) || Top(p) in shown then Some((Excluded, None)) else Some((RemovedBoth, None))
    else
      var kept := ResolveAbsence(prev, row.firstMissingAt, RemoteOnly, w.mountOk, w.now, None, None);
      if kept.Some? then Some((if kept.value.0 == RemovedLocal then RemovedBoth else kept.value.0, kept.value.1))
      else
        var resting := ResolveVanished(row.state);
        if resting.Some? then Some((resting.value, None)) else None
  }

  /** The row is still on the page: resolved, and not to a removed state. */
  predicate Shown(w: Sweep, shown: set<string>, p: string)
    requires p in w.previous
  {
    Decide(w, shown, p).Some? && !TerminalRemoved(Decide(w, shown, p).value.0)
  }

  function RowAfter(w: Sweep, shown: set<string>, p: string): ItemRow
    requires p in w.previous
  {
    var row := w.previous[p];
    match Decide(w, shown, p)
    case None => row
    case Some((state, missing)) =>
      row.(state := state, firstMissingAt := missing, remoteSize := None, localSize := None)
  }

  /** Everything the sweep does, said of the set it ends with. */
  ghost predicate Swept(w: Sweep, vanished: set<string>, found: set<string>, rows: map<string, ItemRow>,
                        shown: set<string>, rows': map<string, ItemRow>, purged: set<string>)
    requires vanished <= w.previous.Keys
  {
    && (forall p :: p in shown <==> p in found || (p in vanished && Shown(w, shown, p)))
    && rows'.Keys == rows.Keys
    && (forall p :: p in rows ==> rows'[p] == if p in vanished then RowAfter(w, shown, p) else rows[p])
    && purged == set p | p in vanished && p in w.archives && HasSlash(p) && Top(p) !in shown
  }

  /** The release of a path that comes earlier in sorted order is not one that comes later. */
  lemma TopIsSettled(order: seq<string>, j: nat, k: nat)
    requires Sorted(order) && j < k < |order| && HasSlash(order[j])
    ensures Top(order[j]) != order[k]
  {
    PrefixComesFirst(Top(order[j]), order[j]);
    OnlyOneBefore(order[j], order[k]);
  }

  /** `_persist`'s second loop, over the rows not found this pass and not protected. */
  method SweepVanished(w: Sweep, vanished: set<string>, found: set<string>, rows: map<string, ItemRow>)
    returns (shown: set<string>, rows': map<string, ItemRow>, purged: set<string>)
    requires vanished <= w.previous.Keys && vanished <= rows.Keys && vanished !! found
    requires forall p :: p in vanished ==> rows[p] == w.previous[p]
    ensures Swept(w, vanished, found, rows, shown, rows', purged)
  {
    var order := SortPaths(vanished);
    shown, rows', purged := found, rows, {};
    ghost var done := {};
    for k := 0 to |order|
      invariant done == set p | p in order[..k]
      invariant done <= vanished && Swept(w, done, found, rows, shown, rows', purged)
    {
      NotYetVisited(order, k);
      assert forall q :: q in order[..k + 1] <==> q in order[..k] || q == order[k];
      shown, rows', purged := SweepOne(w, done, found, rows, shown, rows', purged, order[k]);
      done := done + {order[k]};
    }
    assert order[..|order|] == order;
    assert done == vanished;
  }

  lemma NotYetVisited(order: seq<string>, k: nat)
    requires Sorted(order) && k < |order|
    ensures order[k] !in order[..k]
    ensures forall q :: q in order[..k + 1] && HasSlash(q) ==> Top(q) != order[k]
  {
    Irreflexive(order[k]);
    forall q | q in order[..k + 1] && HasSlash(q)
      ensures Top(q) != order[k]
    {
      var j :| 0 <= j <= k && order[j] == q;
      if j < k {
        TopIsSettled(order, j, k);
      }
    }
  }

  /** One row's turn. No row decided so far, nor this one, looks to this row for its verdict. */
  method SweepOne(w: Sweep, ghost done: set<string>, ghost found: set<string>, ghost rows: map<string, ItemRow>,
                  shown: set<string>, rows': map<string, ItemRow>, purged: set<string>, p: string)
    returns (shown': set<string>, rows'': map<string, ItemRow>, purged': set<string>)
    requires done <= w.previous.Keys && p in w.previous && p !in done && p !in found
    requires p in rows && rows[p] == w.previous[p]
    requires Swept(w, done, found, rows, shown, rows', purged)
    requires forall q :: (q in done || q == p) && HasSlash(q) ==> Top(q) != p
    ensures Swept(w, done + {p}, found, rows, shown', rows'', purged')
  {
    shown', rows'', purged' := shown, rows', purged;
    var verdict := Decide(w, shown, p);
    if verdict.Some? {
      var (state, missing) := verdict.value;
      if p in w.archives && state == RemovedBoth {
        purged' := purged + {p};
      }
      if !TerminalRemoved(state) {
        shown' := shown + {p};
      }
      rows'' := rows'[p := rows'[p].(state := state, firstMissingAt := missing, remoteSize := None, localSize := None)];
    }
    VerdictsStand(w, done + {p}, shown, p);
  }

  /** Showing a row changes the verdict of no row that does not look to it. */
  lemma VerdictsStand(w: Sweep, decided: set<string>, shown: set<string>, p: string)
    requires decided <= w.previous.Keys && forall q :: q in decided && HasSlash(q) ==> Top(q) != p
    ensures forall q :: q in decided ==> Decide(w, shown + {p}, q) == Decide(w, shown, q)
                                         && RowAfter(w, shown + {p}, q) == RowAfter(w, shown, q)
  {
  }

  // --- What a swept table looks like -----------------------------------------------------------------------

  /** A spent archive below its release rests as excluded exactly while the release is shown; otherwise it
      is removed and leaves the registry. */
  lemma ArchiveFollowsItsRelease(w: Sweep, vanished: set<string>, found: set<string>, rows: map<string, ItemRow>,
                                 shown: set<string>, rows': map<string, ItemRow>, purged: set<string>, p: string)
    requires vanished <= w.previous.Keys && vanished <= rows.Keys
             && Swept(w, vanished, found, rows, shown, rows', purged)
    requires p in vanished && p in w.archives && HasSlash(p)
    ensures if Top(p) in shown then rows'[p].state == Excluded && p !in purged
            else rows'[p].state == RemovedBoth && p in purged
    ensures p in shown <==> Top(p) in shown || p in found
  {
  }

  /** The set returned is what was found, and the vanished rows that rest in a state that is not a removal. */
  lemma ReturnedIsFoundOrResting(w: Sweep, vanished: set<string>, found: set<string>, rows: map<string, ItemRow>,
                                 shown: set<string>, rows': map<string, ItemRow>, purged: set<string>, p: string)
    requires vanished <= w.previous.Keys && vanished <= rows.Keys
             && Swept(w, vanished, found, rows, shown, rows', purged)
    requires p in vanished && p !in found
    ensures p in shown <==> Decide(w, shown, p).Some? && rows'[p].state !in {RemovedLocal, RemovedBoth}
    ensures rows'[p].state == RemovedLocal ==> rows'[p] == w.previous[p]
  {
  }

  /** Whichever set satisfies the description is the one: the verdicts leave no choice. */
  lemma SweptIsUnique(w: Sweep, vanished: set<string>, found: set<string>, rows: map<string, ItemRow>,
                      s: set<string>, r: map<string, ItemRow>, u: set<string>,
                      s': set<string>, r': map<string, ItemRow>, u': set<string>)
    requires vanished <= w.previous.Keys && vanished <= rows.Keys
    requires Swept(w, vanished, found, rows, s, r, u) && Swept(w, vanished, found, rows, s', r', u')
    ensures s == s' && r == r' && u == u'
  {
  }

  /** The grace period survives the disappearance: a row that asserted completeness is kept as it was,
      with its clock running, until ten minutes are up on a healthy mount. */
  lemma GraceHoldsVanishedRows(w: Sweep, shown: set<string>, p: string)
    requires p in w.previous && p !in w.archives && AssertsComplete(w.previous[p].state)
    ensures var row := w.previous[p];
            var over := w.mountOk && row.firstMissingAt.Some? && w.now - row.firstMissingAt.value >= 600;
            RowAfter(w, shown, p).state == (if over then RemovedBoth else row.state)
            && Shown(w, shown, p) == !over
            && (w.mountOk && row.firstMissingAt.None? ==> RowAfter(w, shown, p).firstMissingAt == Some(w.now))
  {
  }

  /** Visiting a child before its release can decide it wrongly: the release goes on being shown. */
  lemma ChildFirstGoesWrong()
    ensures exists w: Sweep, p: string :: p in w.previous && Top(p) in w.previous && HasSlash(p)
              && Decide(w, {}, p) == Some((RemovedBoth, None))
              && Shown(w, {}, Top(p)) && Decide(w, {Top(p)}, p) == Some((Excluded, None))
  {
    var done := ItemRow(Downloaded, false, None, None, None, None, false, false);
    var w := Sweep(map["a" := done, "a/x" := done.(state := Excluded)], {"a/x"}, true, 0);
    assert Top("a/x") == ['a'] + Top("/x") == "a";
    assert Decide(w, {}, "a/x") == Some((RemovedBoth, None));
    assert Shown(w, {}, "a");
  }
}
