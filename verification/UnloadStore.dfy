// The per-session store of unloaded segments (fairyclaw/capabilities/compression_hooks/
// scripts/_unloaded_segments_state.py). The state file is re-read and rewritten by every
// operation; here it is the list of records.
module UnloadStore {
  import opened History

  datatype Record = Record(
    unloadId: string,
    role: Role,
    segments: seq<Segment>,
    placeholder: string,
    historyIndex: nat,
    restored: bool)

  // The position of the first record with this id, or the number of records.
  function FindRecord(records: seq<Record>, id: string): nat {
    if records == [] then 0
    else if records[0].unloadId == id then 0
    else 1 + FindRecord(records[1..], id)
  }

  function Appended(records: seq<Record>, r: Record): seq<Record> {
    var k := FindRecord(records, r.unloadId);
    if r.unloadId == "" || r.segments == [] then records
    else if k < |records| then records[k := records[k].(restored := false)]
    else records + [r]
  }

  function Selected(records: seq<Record>, wanted: set<string>): seq<Record> {
    if records == [] then []
    else
      Selected(records[..|records| - 1], wanted)
      + var r := records[|records| - 1]; if !r.restored && r.unloadId in wanted then [r] else []
  }

  function Restored(records: seq<Record>, ids: set<string>): seq<Record> {
    if records == [] then []
    else
      var r := records[|records| - 1];
      Restored(records[..|records| - 1], ids) + [if r.unloadId in ids then r.(restored := true) else r]
  }

  function IdsOf(records: seq<Record>): set<string> {
    set r | r in records :: r.unloadId
  }

  // consume_unloaded_segment_records in mode "ids": the records left, and those handed out.
  function Consumed(records: seq<Record>, wanted: set<string>): (seq<Record>, seq<Record>) {
    var selected := Selected(records, wanted);
    (Restored(records, IdsOf(selected)), selected)
  }

  function RestoredFingerprints(fingerprint: Segment -> string, records: seq<Record>): set<string> {
    set r, s | r in records && r.restored && s in r.segments :: fingerprint(s)
  }

  class UnloadedSegmentsState {
    var records: seq<Record>

    constructor ()
      ensures records == []
    {
      records := [];
    }

    method AppendRecord(r: Record)
      modifies this
      ensures records == Appended(old(records), r)
    {
      if r.unloadId == "" || r.segments == [] {
        return;
      }
      var k := 0;
      while k < |records|
        invariant k <= |records| && records == old(records)
        invariant FindRecord(records, r.unloadId) == k + FindRecord(records[k..], r.unloadId)
      {
        if records[k].unloadId == r.unloadId {
          records := records[k := records[k].(restored := false)];
          return;
        }
        k := k + 1;
      }
      records := records + [r];
    }

    method ConsumeRecords(wanted: set<string>) returns (selected: seq<Record>)
      modifies this
      ensures records == Consumed(old(records), wanted).0
      ensures selected == Consumed(old(records), wanted).1
    {
      selected := SelectRecords(wanted);
      if selected == [] {
        assert IdsOf(selected) == {};
        NothingRestored(records);
        return;
      }
      MarkRestored(IdsOf(selected));
    }

    method SelectRecords(wanted: set<string>) returns (selected: seq<Record>)
      ensures selected == Selected(records, wanted)
    {
      selected := [];
      var k := 0;
      while k < |records|
        invariant k <= |records| && selected == Selected(records[..k], wanted)
      {
        assert records[..k + 1][..k] == records[..k];
        if !records[k].restored && records[k].unloadId in wanted {
          selected := selected + [records[k]];
        }
        k := k + 1;
      }
      assert records[..|records|] == records;
    }

    method MarkRestored(ids: set<string>)
      modifies this
      ensures records == Restored(old(records), ids)
    {
      RestoredAt(records, ids);
      ghost var marked := Restored(records, ids);
      var k := 0;
      while k < |records|
        invariant k <= |records| == |old(records)|
        invariant forall i :: 0 <= i < k ==> records[i] == marked[i]
        invariant forall i :: k <= i < |records| ==> records[i] == old(records)[i]
      {
        var r := records[k];
        if r.unloadId in ids {
          r := r.(restored := true);
        }
        records := records[k := r];
        k := k + 1;
      }
    }
  }

  lemma {:induction false} NothingRestored(records: seq<Record>)
    ensures Restored(records, {}) == records
  {
    if records != [] {
      NothingRestored(records[..|records| - 1]);
    }
  }

  // ---------- appending ----------

  ghost predicate UniqueIds(records: seq<Record>) {
    forall i, j :: 0 <= i < j < |records| ==> records[i].unloadId != records[j].unloadId
  }

  lemma {:induction false} FindFirst(records: seq<Record>, id: string)
    ensures FindRecord(records, id) <= |records|
    ensures FindRecord(records, id) < |records| ==> records[FindRecord(records, id)].unloadId == id
    ensures FindRecord(records, id) == |records| ==> forall r :: r in records ==> r.unloadId != id
  {
    if records != [] && records[0].unloadId != id {
      FindFirst(records[1..], id);
    }
  }

  // An append keeps ids unique and every other record, and leaves an active record with the id.
  lemma AppendFacts(records: seq<Record>, r: Record)
    requires UniqueIds(records) && r.unloadId != "" && r.segments != [] && !r.restored
    ensures var after := Appended(records, r);
            && UniqueIds(after) && |records| <= |after|
            && (forall k :: 0 <= k < |records| ==>
                  after[k] == if records[k].unloadId == r.unloadId then records[k].(restored := false) else records[k])
            && (forall k :: |records| <= k < |after| ==> after[k] == r)
            && (exists k :: 0 <= k < |after| && after[k].unloadId == r.unloadId && !after[k].restored)
  {
    FindFirst(records, r.unloadId);
    var k, after := FindRecord(records, r.unloadId), Appended(records, r);
    assert after[k].unloadId == r.unloadId && !after[k].restored;
  }

  // An append changes nothing exactly if the record has no id or no segments, or is there already
  // and active.
  lemma AppendChangesIff(records: seq<Record>, r: Record)
    requires UniqueIds(records)
    ensures Appended(records, r) == records <==>
            r.unloadId == "" || r.segments == [] || exists k :: 0 <= k < |records| && records[k].unloadId == r.unloadId && !records[k].restored
  {
    FindFirst(records, r.unloadId);
    var k := FindRecord(records, r.unloadId);
    if r.unloadId != "" && r.segments != [] && k < |records| {
      assert Appended(records, r)[k] == records[k].(restored := false);
    }
  }

  // ---------- consuming ----------

  lemma {:induction false} SelectedMember(records: seq<Record>, wanted: set<string>, r: Record)
    ensures r in Selected(records, wanted) <==> r in records && !r.restored && r.unloadId in wanted
  {
    if records != [] {
      var front := records[..|records| - 1];
      SelectedMember(front, wanted, r);
      assert records == front + [records[|records| - 1]];
    }
  }

  predicate Wanted(r: Record, wanted: set<string>) {
    !r.restored && r.unloadId in wanted
  }

  // at lists, in increasing order, the positions of the wanted records that are active.
  ghost predicate PicksWanted(at: seq<nat>, records: seq<Record>, wanted: set<string>) {
    && (forall k :: 0 <= k < |at| ==> at[k] < |records| && Wanted(records[at[k]], wanted))
    && (forall j, k :: 0 <= j < k < |at| ==> at[j] < at[k])
    && (forall i :: 0 <= i < |records| && Wanted(records[i], wanted) ==> i in at)
  }

  lemma WantedSnoc(at: seq<nat>, records: seq<Record>, last: Record, wanted: set<string>)
    requires PicksWanted(at, records, wanted)
    ensures PicksWanted(at + if Wanted(last, wanted) then [|records|] else [], records + [last], wanted)
  {
    var all := at + if Wanted(last, wanted) then [|records|] else [];
    forall i | 0 <= i < |records + [last]| && Wanted((records + [last])[i], wanted) ensures i in all {
      if i < |records| {
        assert records[i] == (records + [last])[i] && i in at;
      } else {
        assert all[|at|] == i;
      }
    }
  }

  // What is handed out are these records, in the order of the store.
  lemma {:induction false} HandsOutInOrder(records: seq<Record>, wanted: set<string>) returns (at: seq<nat>)
    ensures PicksWanted(at, records, wanted) && |Selected(records, wanted)| == |at|
    ensures forall k :: 0 <= k < |at| ==> Selected(records, wanted)[k] == records[at[k]]
  {
    at := [];
    if records != [] {
      var front, last := records[..|records| - 1], records[|records| - 1];
      var rest := HandsOutInOrder(front, wanted);
      WantedSnoc(rest, front, last, wanted);
      assert front + [last] == records;
      at := rest + if Wanted(last, wanted) then [|front|] else [];
    }
  }

  lemma {:induction false} RestoredAt(records: seq<Record>, ids: set<string>)
    ensures |Restored(records, ids)| == |records|
    ensures forall k :: 0 <= k < |records| ==>
              Restored(records, ids)[k] == records[k].(restored := records[k].restored || records[k].unloadId in ids)
  {
    if records != [] {
      RestoredAt(records[..|records| - 1], ids);
    }
  }

  lemma {:induction false} SelectedOne(records: seq<Record>, k: nat)
    requires UniqueIds(records) && k < |records| && !records[k].restored
    ensures Selected(records, {records[k].unloadId}) == [records[k]]
  {
    var front, last := records[..|records| - 1], |records| - 1;
    if k < last {
      SelectedOne(front, k);
    } else {
      NoneSelected(front, records[k].unloadId);
    }
  }

  lemma {:induction false} NoneSelected(records: seq<Record>, id: string)
    requires forall k :: 0 <= k < |records| ==> records[k].unloadId == id ==> records[k].restored
    ensures Selected(records, {id}) == []
  {
    if records != [] {
      NoneSelected(records[..|records| - 1], id);
    }
  }

  // Asking for an active record hands out exactly it, once: asking again hands out nothing
  // until it is unloaded again, and no other record is touched.
  lemma ConsumeOnce(records: seq<Record>, k: nat)
    requires UniqueIds(records) && k < |records| && !records[k].restored
    ensures var id := records[k].unloadId;
            var (after, handed) := Consumed(records, {id});
            && handed == [records[k]]
            && after == records[k := records[k].(restored := true)]
            && Consumed(after, {id}) == (after, [])
  {
    var id := records[k].unloadId;
    SelectedOne(records, k);
    var (after, handed) := Consumed(records, {id});
    assert IdsOf(handed) == {id};
    RestoredAt(records, {id});
    assert after == records[k := records[k].(restored := true)];
    assert forall i :: 0 <= i < |records| && i != k ==> records[i].unloadId != id;
    NoneSelected(after, id);
    assert IdsOf([]) == {};
    NothingRestored(after);
  }

  // Unloading a consumed record again makes it available again.
  lemma UnloadAgain(records: seq<Record>, k: nat, r: Record)
    requires UniqueIds(records) && k < |records| && !records[k].restored
    requires r.unloadId == records[k].unloadId && r.unloadId != "" && r.segments != []
    ensures Appended(Consumed(records, {r.unloadId}).0, r) == records
  {
    ConsumeOnce(records, k);
    var after := Consumed(records, {r.unloadId}).0;
    FindFirst(after, r.unloadId);
    assert after[k].unloadId == r.unloadId && forall i :: 0 <= i < |after| ==> after[i].unloadId == records[i].unloadId;
  }
}
