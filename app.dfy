/** The App component's state as an object: the record list, the copy of it that
    is kept in browser storage, the list filter and the form's inputs. Each
    state setter of the component is a method that changes its own field and no
    other; adding and deleting replace the list and then save it, as the
    component's save-after-change effect does. */
module App {
  import opened Wrappers
  import opened Filtering
  import opened Records

  class RecordStore {
    /** The in-memory list, newest first. */
    var records: seq<Record>
    /** What the storage slot holds: the list as last saved. */
    var persisted: seq<Record>
    /** The list filter the user has chosen. */
    var filter: ListFilter
    /** The form's inputs: the selected type, the amount text, the selected
        diaper status and the note text. */
    var kind: RecordType
    var amountText: string
    var status: string
    var note: string

    /** Storage holds exactly the in-memory list. */
    predicate Synced()
      reads this
    {
      persisted == records
    }

    /** Mounting the component: the list starts as what storage held (empty when
        it held nothing), the filter shows everything, the form starts blank on
        a feeding with status "wet", and the list is saved once. `stored` is the
        stored value after parsing. */
    constructor (stored: Option<seq<Record>>)
      ensures records == (if stored.Some? then stored.value else [])
      ensures Synced()
      ensures filter == All
      ensures kind == Feeding && amountText == "" && status == DefaultStatus && note == ""
    {
      records := if stored.Some? then stored.value else [];
      persisted := records;
      filter := All;
      kind := Feeding;
      amountText := "";
      status := DefaultStatus;
      note := "";
    }

    /** The save-after-change effect: the whole list overwrites the stored one. */
    method Save()
      modifies this`persisted
      ensures Synced()
    {
      persisted := records;
    }

    /** Submitting the form with a generated `id` and the current `time`: the new
        record, built from the form's inputs, goes in front of the unchanged old
        list, the list is saved, and the amount and note inputs are cleared while
        the type, the status and the filter stay as they were. */
    method AddRecord(id: string, time: string)
      modifies this`records, this`persisted, this`amountText, this`note
      ensures records == [NewRecord(id, kind, time, old(amountText), status, old(note))] + old(records)
      ensures |records| == |old(records)| + 1 && records[1..] == old(records)
      ensures Synced()
      ensures amountText == "" && note == ""
      ensures id !in Ids(old(records)) && DistinctIds(old(records)) ==> DistinctIds(records)
      ensures AllWellShaped(old(records)) ==> AllWellShaped(records)
      ensures id !in Ids(old(records)) ==> WithoutId(records, id) == old(records)
    {
      var r := NewRecord(id, kind, time, amountText, status, note);
      AddKeepsDistinct(records, r);
      if id !in Ids(records) {
        AddThenDelete(records, r);
      }
      records := [r] + records;
      Save();
      amountText := "";
      note := "";
    }

    /** Deleting the record(s) with `id`; `confirmed` is the user's answer to the
        confirmation dialog. Declining changes nothing and saves nothing;
        confirming removes every record with that id, keeps the rest in order,
        and saves the list. */
    method DeleteRecord(id: string, confirmed: bool)
      modifies this`records, this`persisted
      ensures records == if confirmed then WithoutId(old(records), id) else old(records)
      ensures confirmed ==> Synced()
      ensures !confirmed ==> persisted == old(persisted)
      ensures id !in Ids(records) || !confirmed
      ensures id !in Ids(old(records)) ==> records == old(records)
      ensures DistinctIds(old(records)) ==> DistinctIds(records)
      ensures AllWellShaped(old(records)) ==> AllWellShaped(records)
    {
      if confirmed {
        DeleteUnchanged(records, id);
        if DistinctIds(records) {
          DeleteKeepsDistinct(records, id);
        }
        if AllWellShaped(records) {
          DeleteKeepsWellShaped(records, id);
        }
        records := WithoutId(records, id);
        Save();
      }
    }

    /** The list as displayed: under `all` the list itself; under one type, each
        record of that type as often as it occurs in the list and no other
        record, each at the position given by the number of records of that
        type before it in the list, so in list order. */
    function FilteredRecords(): (r: seq<Record>)
      reads this
      ensures filter == All ==> r == records
      ensures filter.Only? ==> forall x :: multiset(r)[x] == if x.kind == filter.kind then multiset(records)[x] else 0
      ensures filter.Only? ==> forall i :: 0 <= i < |records| && records[i].kind == filter.kind ==>
                |View(records[..i], filter)| < |r| && r[|View(records[..i], filter)|] == records[i]
    {
      if filter.All? then records
      else
        var k := filter.kind;
        assert forall x :: multiset(View(records, filter))[x] == if x.kind == k then multiset(records)[x] else 0 by {
          forall x ensures multiset(View(records, filter))[x] == if x.kind == k then multiset(records)[x] else 0 {
            ViewCount(records, k, x);
          }
        }
        assert forall i :: 0 <= i < |records| && records[i].kind == k ==>
                 |View(records[..i], filter)| < |View(records, filter)| && View(records, filter)[|View(records[..i], filter)|] == records[i] by {
          forall i | 0 <= i < |records| && records[i].kind == k
            ensures |View(records[..i], filter)| < |View(records, filter)| && View(records, filter)[|View(records[..i], filter)|] == records[i]
          {
            FilterRank(records, OfKind(k), i);
          }
        }
        View(records, filter)
    }

    /** Choosing feeding or diaper on the form. */
    method SelectType(k: RecordType)
      modifies this`kind
      ensures kind == k
    {
      kind := k;
    }

    /** Typing into the amount input. */
    method EnterAmount(text: string)
      modifies this`amountText
      ensures amountText == text
    {
      amountText := text;
    }

    /** Choosing a diaper status. */
    method SelectStatus(s: string)
      modifies this`status
      ensures status == s
    {
      status := s;
    }

    /** Typing into the note input. */
    method EnterNote(text: string)
      modifies this`note
      ensures note == text
    {
      note := text;
    }

    /** Choosing the list filter. */
    method SelectFilter(f: ListFilter)
      modifies this`filter
      ensures filter == f
    {
      filter := f;
    }
  }
}
