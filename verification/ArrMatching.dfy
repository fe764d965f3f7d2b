/**
 Matching queue records to items: a greedy pass over the items in order, each taking the first
 record that no earlier item took and that it may accept.
 */
module ArrMatching {
  import opened Common
  import opened ArrLifecycle

  const TRACKED_DOWNLOAD_STATE_IMPORTED := "imported"

  /** The fields of one queue record that the poller reads. */
  datatype QueueRecord = QueueRecord(
    downloadId: Option<string>, title: string, outputPath: Option<string>, trackedState: Option<string>)

  /** `_record_matches_item`: by output path basename, or else by normalized title. */
  type NameTest = (QueueRecord, string) -> bool

  /** The name matches, and a settled association is not restarted by its own download id. */
  predicate Acceptable(row: Row, record: QueueRecord, names: NameTest) {
    names(record, row.relPath)
    && !(Rematchable(row.status) && record.downloadId.Some? && record.downloadId == row.downloadId)
  }

  /** The first acceptable record at or after `k` that is not in `used`. */
  function FirstFree(row: Row, records: seq<QueueRecord>, used: set<nat>, names: NameTest, k: nat): (r: Option<nat>)
    requires k <= |records|
    ensures r.Some? ==> k <= r.value < |records| && r.value !in used && Acceptable(row, records[r.value], names)
    ensures forall j :: k <= j < (if r.Some? then r.value else |records|) && j !in used
                        ==> !Acceptable(row, records[j], names)
    decreases |records| - k
  {
    if k == |records| then None
    else if k !in used && Acceptable(row, records[k], names) then Some(k)
    else FirstFree(row, records, used, names, k + 1)
  }

  function Pick(row: Row, records: seq<QueueRecord>, used: set<nat>, names: NameTest): Option<nat> {
    if Matchable(row.status) then FirstFree(row, records, used, names, 0) else None
  }

  function Taken(choice: Option<nat>): set<nat> { if choice.Some? then {choice.value} else {} }

  /** The record each item takes, given the records already used. */
  function Greedy(items: seq<Row>, records: seq<QueueRecord>, used: set<nat>,
                  names: NameTest): (chosen: seq<Option<nat>>)
    ensures |chosen| == |items|
  {
    if items == [] then []
    else
      var choice := Pick(items[0], records, used, names);
      [choice] + Greedy(items[1..], records, used + Taken(choice), names)
  }

  /** Each choice is acceptable and was free, and every earlier acceptable record was taken before it. */
  lemma {:induction false} GreedyChoosesEarliest(items: seq<Row>, records: seq<QueueRecord>, used: set<nat>,
                                                 names: NameTest, i: nat)
    requires i < |items|
    ensures var chosen := Greedy(items, records, used, names);
            && (chosen[i].Some? ==>
                  && chosen[i].value < |records| && chosen[i].value !in used
                  && Matchable(items[i].status) && Acceptable(items[i], records[chosen[i].value], names))
            && (Matchable(items[i].status) ==>
                  forall r: nat :: r < (if chosen[i].Some? then chosen[i].value else |records|)
                                   && Acceptable(items[i], records[r], names)
                                   ==> r in used || exists j :: 0 <= j < i && chosen[j] == Some(r))
  {
    var choice := Pick(items[0], records, used, names);
    var chosen := Greedy(items, records, used, names);
    if i > 0 {
      var used' := used + Taken(choice);
      GreedyChoosesEarliest(items[1..], records, used', names, i - 1);
      var rest := Greedy(items[1..], records, used', names);
      assert chosen[i] == rest[i - 1];
      if Matchable(items[i].status) {
        forall r: nat | r < (if chosen[i].Some? then chosen[i].value else |records|)
                        && Acceptable(items[i], records[r], names) && r !in used
          ensures exists j :: 0 <= j < i && chosen[j] == Some(r)
        {
          if r in used' {
            assert chosen[0] == Some(r);
          } else {
            var j :| 0 <= j < i - 1 && rest[j] == Some(r);
            assert chosen[j + 1] == Some(r);
          }
        }
      }
    }
  }

  /** The record bears the item's name, and a settled association is not restarted by its own download id. */
  predicate MayTake(row: Row, record: QueueRecord, names: NameTest) {
    && row.status in {Untracked, Dropped, Gone, Cleaned} && names(record, row.relPath)
    && (row.status in {Gone, Cleaned} ==> record.downloadId.None? || record.downloadId != row.downloadId)
  }

  /** An earlier item took the record. */
  predicate TakenBefore(chosen: seq<Option<nat>>, i: nat, r: nat)
    requires i <= |chosen|
  {
    exists j :: 0 <= j < i && chosen[j] == Some(r)
  }

  /** Each item takes the first record it may take that no earlier item took. */
  lemma GreedyTakesExactly(items: seq<Row>, records: seq<QueueRecord>, names: NameTest, i: nat, r: nat)
    requires i < |items|
    ensures var chosen := Greedy(items, records, {}, names);
            chosen[i] == Some(r)
            <==> && r < |records| && MayTake(items[i], records[r], names) && !TakenBefore(chosen, i, r)
                 && forall q: nat :: q < r && MayTake(items[i], records[q], names) ==> TakenBefore(chosen, i, q)
  {
    var chosen := Greedy(items, records, {}, names);
    GreedyChoosesEarliest(items, records, {}, names, i);
    assert forall q: nat :: q < |records| ==>
      (MayTake(items[i], records[q], names) <==> Matchable(items[i].status) && Acceptable(items[i], records[q], names));
    if chosen[i].Some? && TakenBefore(chosen, i, chosen[i].value) {
      var j :| 0 <= j < i && chosen[j] == chosen[i];
      GreedyIsInjective(items, records, {}, names, j, i);
    }
  }

  /** No record is committed to two items. */
  lemma {:induction false} GreedyIsInjective(items: seq<Row>, records: seq<QueueRecord>, used: set<nat>,
                                             names: NameTest, i: nat, j: nat)
    requires i < j < |items|
    ensures var chosen := Greedy(items, records, used, names);
            chosen[i].Some? ==> chosen[j] != chosen[i]
  {
    var choice := Pick(items[0], records, used, names);
    if i == 0 {
      GreedyChoosesEarliest(items[1..], records, used + Taken(choice), names, j - 1);
    } else {
      GreedyIsInjective(items[1..], records, used + Taken(choice), names, i - 1, j - 1);
    }
  }

  /** At the end, no unmatched candidate has an unused record it would accept. */
  lemma {:induction false} GreedyIsMaximal(items: seq<Row>, records: seq<QueueRecord>, names: NameTest, i: nat, r: nat)
    requires i < |items| && r < |records|
    requires Matchable(items[i].status) && Acceptable(items[i], records[r], names)
    requires Greedy(items, records, {}, names)[i].None?
    ensures exists j :: 0 <= j < i && Greedy(items, records, {}, names)[j] == Some(r)
  {
    GreedyChoosesEarliest(items, records, {}, names, i);
  }

  lemma {:induction false} GreedySnoc(items: seq<Row>, row: Row, records: seq<QueueRecord>, used: set<nat>,
                                      names: NameTest)
    ensures var before := Greedy(items, records, used, names);
            var all := used + (set i | 0 <= i < |before| && before[i].Some? :: before[i].value);
            Greedy(items + [row], records, used, names) == before + [Pick(row, records, all, names)]
  {
    var before := Greedy(items, records, used, names);
    var all := used + (set i | 0 <= i < |before| && before[i].Some? :: before[i].value);
    if items == [] {
      assert items + [row] == [row] && all == used;
    } else {
      var choice := Pick(items[0], records, used, names);
      var rest := Greedy(items[1..], records, used + Taken(choice), names);
      GreedySnoc(items[1..], row, records, used + Taken(choice), names);
      assert (items + [row])[1..] == items[1..] + [row];
      var all' := used + Taken(choice) + (set i | 0 <= i < |rest| && rest[i].Some? :: rest[i].value);
      assert all == all' by {
        forall x ensures x in all <==> x in all' {
          if x in all' && x !in used && x !in Taken(choice) {
            var i :| 0 <= i < |rest| && rest[i] == Some(x);
            assert before[i + 1] == Some(x);
          }
          if x in Taken(choice) {
            assert before[0] == Some(x);
          }
          if x in all && x !in used {
            var i :| 0 <= i < |before| && before[i] == Some(x);
            assert i > 0 ==> rest[i - 1] == Some(x);
          }
        }
      }
    }
  }

  /** `_match_items`, as the loop over candidates and records that it is. */
  method MatchItems(items: seq<Row>, records: seq<QueueRecord>, names: NameTest) returns (chosen: seq<Option<nat>>)
    ensures chosen == Greedy(items, records, {}, names)
  {
    chosen := [];
    var used: set<nat> := {};
    for n := 0 to |items|
      invariant chosen == Greedy(items[..n], records, {}, names)
      invariant used == {} + (set i | 0 <= i < |chosen| && chosen[i].Some? :: chosen[i].value)
    {
      var row := items[n];
      var matched: Option<nat> := None;
      if Matchable(row.status) {
        var r := 0;
        while r < |records| && (r in used || !Acceptable(row, records[r], names))
          invariant 0 <= r <= |records|
          invariant FirstFree(row, records, used, names, 0) == FirstFree(row, records, used, names, r)
        {
          r := r + 1;
        }
        if r < |records| {
          matched := Some(r);
        }
      }
      GreedySnoc(items[..n], row, records, {}, names);
      assert items[..n + 1] == items[..n] + [row];
      ghost var before := chosen;
      chosen := chosen + [matched];
      if matched.Some? {
        used := used + {matched.value};
        assert chosen[n] == Some(matched.value);
      }
      assert forall i :: 0 <= i < n ==> chosen[i] == before[i];
      assert used == {} + (set i | 0 <= i < |chosen| && chosen[i].Some? :: chosen[i].value);
    }
    assert items[..|items|] == items;
  }

  /** The record an item's import check looks at: by download id when there is one, else by name. */
  function CurrentRecord(row: Row, records: seq<QueueRecord>, names: NameTest): (r: Option<QueueRecord>)
    ensures r.Some? ==> r.value in records
                        && (if row.downloadId.Some? then r.value.downloadId == row.downloadId
                            else names(r.value, row.relPath))
    ensures r.None? ==> forall q :: q in records ==>
                          !(if row.downloadId.Some? then q.downloadId == row.downloadId else names(q, row.relPath))
  {
    if records == [] then None
    else if (if row.downloadId.Some? then records[0].downloadId == row.downloadId else names(records[0], row.relPath))
    then Some(records[0])
    else CurrentRecord(row, records[1..], names)
  }

  /** The record is still listed, and not as imported: "not yet". */
  predicate Lingers(row: Row, records: seq<QueueRecord>, names: NameTest) {
    var current := CurrentRecord(row, records, names);
    current.Some? && current.value.trackedState != Some(TRACKED_DOWNLOAD_STATE_IMPORTED)
  }
}
