/** The values the record store keeps: one logged feeding or diaper change per
    Record, in the shape the store gives them (an `amount` only on feedings, a
    `status` only on diaper changes), and the pure list operations over them:
    building a new record, removing by id, and the per-type view. */
module Records {
  import opened Wrappers
  import opened Filtering

  /** What was logged. */
  datatype RecordType = Feeding | Diaper

  /** The number that JavaScript's Number() conversion yields for the text typed
      into the amount field. The record keeps which text it came from; the
      numeric value itself (floating point, NaN) is not modelled. */
  datatype Amount = NumberOf(text: string)

  /** One logged event. `time` is the display string captured at creation; the
      optional fields follow the component's `Record` interface, where any of
      them may be missing in stored data. */
  datatype Record = Record(
    id: string,
    kind: RecordType,
    time: string,
    amount: Option<Amount>,
    status: Option<string>,
    note: Option<string>)

  /** The list filter: everything, or only the records of one type. */
  datatype ListFilter = All | Only(kind: RecordType)

  /** The diaper status the form starts with. */
  const DefaultStatus: string := "wet"

  /** A record carries exactly the field its type calls for: an amount for a
      feeding, a status for a diaper change, and never the other one. */
  predicate WellShaped(r: Record) {
    && (r.amount.Some? <==> r.kind == Feeding)
    && (r.status.Some? <==> r.kind == Diaper)
  }

  predicate AllWellShaped(rs: seq<Record>) {
    forall i :: 0 <= i < |rs| ==> WellShaped(rs[i])
  }

  /** The ids that occur in a list. */
  function Ids(rs: seq<Record>): set<string> {
    set i | 0 <= i < |rs| :: rs[i].id
  }

  /** No two records of the list share an id. */
  predicate DistinctIds(rs: seq<Record>) {
    forall i, j :: 0 <= i < j < |rs| ==> rs[i].id != rs[j].id
  }

  /** The record the form produces: the selected type, the caller's id and time,
      the amount text only for a feeding, the selected status only for a diaper
      change, and the note text always. */
  function NewRecord(id: string, kind: RecordType, time: string,
                     amountText: string, status: string, note: string): (r: Record)
    ensures r.id == id && r.kind == kind && r.time == time && r.note == Some(note)
    ensures r.amount.Some? <==> kind == Feeding
    ensures r.amount.Some? ==> r.amount.value == NumberOf(amountText)
    ensures r.status.Some? <==> kind == Diaper
    ensures r.status.Some? ==> r.status.value == status
    ensures WellShaped(r)
  {
    Record(id, kind, time,
           if kind == Feeding then Some(NumberOf(amountText)) else None,
           if kind == Diaper then Some(status) else None,
           Some(note))
  }

  /** The test that keeps a record when its id differs from `id`. */
  function IdOtherThan(id: string): Record -> bool {
    (r: Record) => r.id != id
  }

  /** The test that keeps a record of type `k`. */
  function OfKind(k: RecordType): Record -> bool {
    (r: Record) => r.kind == k
  }

  /** The list after removing every record whose id is `id`. */
  function WithoutId(rs: seq<Record>, id: string): (r: seq<Record>)
    ensures forall i :: 0 <= i < |r| ==> r[i] in rs && r[i].id != id
    ensures forall i :: 0 <= i < |rs| && rs[i].id != id ==> rs[i] in r
    ensures id !in Ids(r)
  {
    Filter(rs, IdOtherThan(id))
  }

  /** The records shown under a filter. */
  function View(rs: seq<Record>, f: ListFilter): (r: seq<Record>)
    ensures f == All ==> r == rs
    ensures f.Only? ==> forall i :: 0 <= i < |r| ==> r[i] in rs && r[i].kind == f.kind
    ensures f.Only? ==> forall i :: 0 <= i < |rs| && rs[i].kind == f.kind ==> rs[i] in r
  {
    match f
    case All => rs
    case Only(k) => Filter(rs, OfKind(k))
  }

  /** Deleting keeps every record whose id differs, as many times as it occurs,
      and no record with the deleted id. */
  lemma DeleteCount(rs: seq<Record>, id: string, x: Record)
    ensures multiset(WithoutId(rs, id))[x] == if x.id != id then multiset(rs)[x] else 0
  {
    FilterCount(rs, IdOtherThan(id), x);
  }

  /** Deleting does not reorder: it acts on each part of a list separately. */
  lemma DeleteConcat(a: seq<Record>, b: seq<Record>, id: string)
    ensures WithoutId(a + b, id) == WithoutId(a, id) + WithoutId(b, id)
  {
    FilterConcat(a, b, IdOtherThan(id));
  }

  /** Deleting changes the list exactly when the id occurs in it. */
  lemma DeleteUnchanged(rs: seq<Record>, id: string)
    ensures WithoutId(rs, id) == rs <==> id !in Ids(rs)
  {
    FilterUnchanged(rs, IdOtherThan(id));
    if id !in Ids(rs) {
      forall i | 0 <= i < |rs| ensures IdOtherThan(id)(rs[i]) {
        assert rs[i].id in Ids(rs);
      }
    }
  }

  /** Deleting the same id twice has the effect of deleting it once. */
  lemma DeleteTwice(rs: seq<Record>, id: string)
    ensures WithoutId(WithoutId(rs, id), id) == WithoutId(rs, id)
  {
    FilterIdempotent(rs, IdOtherThan(id));
  }

  /** Deleting keeps ids pairwise distinct. */
  lemma DeleteKeepsDistinct(rs: seq<Record>, id: string)
    requires DistinctIds(rs)
    ensures DistinctIds(WithoutId(rs, id))
  {
    FilterKeepsDistinct(rs, IdOtherThan(id), (r: Record) => r.id);
  }

  /** Deleting keeps every record well shaped when all were. */
  lemma DeleteKeepsWellShaped(rs: seq<Record>, id: string)
    requires AllWellShaped(rs)
    ensures AllWellShaped(WithoutId(rs, id))
  {
  }

  /** Putting a record in front keeps ids distinct exactly when its id is fresh
      and the list's ids were distinct. */
  lemma AddKeepsDistinct(rs: seq<Record>, r: Record)
    ensures DistinctIds([r] + rs) <==> r.id !in Ids(rs) && DistinctIds(rs)
  {
    var s := [r] + rs;
    if DistinctIds(s) {
      forall i, j | 0 <= i < j < |rs| ensures rs[i].id != rs[j].id {
        assert s[i + 1] == rs[i] && s[j + 1] == rs[j];
      }
    }
    if r.id in Ids(rs) {
      var k :| 0 <= k < |rs| && rs[k].id == r.id;
      assert s[0].id == s[k + 1].id;
    }
    if r.id !in Ids(rs) && DistinctIds(rs) {
      forall i, j | 0 <= i < j < |s| ensures s[i].id != s[j].id {
        if i == 0 {
          assert s[j] == rs[j - 1];
          assert rs[j - 1].id in Ids(rs);
        } else {
          assert s[i] == rs[i - 1] && s[j] == rs[j - 1];
        }
      }
    }
  }

  /** Deleting the id of a record just put in front, when that id was fresh,
      gives back the list as it was before the add. */
  lemma AddThenDelete(rs: seq<Record>, r: Record)
    requires r.id !in Ids(rs)
    ensures WithoutId([r] + rs, r.id) == rs
  {
    DeleteConcat([r], rs, r.id);
    DeleteUnchanged(rs, r.id);
    assert WithoutId([r], r.id) == [];
  }

  /** A per-type view keeps every record of that type, as many times as it
      occurs, and no record of the other type. */
  lemma ViewCount(rs: seq<Record>, k: RecordType, x: Record)
    ensures multiset(View(rs, Only(k)))[x] == if x.kind == k then multiset(rs)[x] else 0
  {
    FilterCount(rs, OfKind(k), x);
  }

  /** A per-type view does not reorder: it acts on each part of a list separately. */
  lemma ViewConcat(a: seq<Record>, b: seq<Record>, k: RecordType)
    ensures View(a + b, Only(k)) == View(a, Only(k)) + View(b, Only(k))
  {
    FilterConcat(a, b, OfKind(k));
  }

  /** A record put in front of the list heads the view of its own type and
      leaves the view of the other type as it was. */
  lemma ViewAfterAdd(rs: seq<Record>, r: Record, k: RecordType)
    ensures View([r] + rs, Only(k)) == if r.kind == k then [r] + View(rs, Only(k)) else View(rs, Only(k))
  {
  }

  /** The feeding and diaper views split the list: no record is in both, every
      record is in one of them as often as in the list, and their lengths add
      up to the list's length. */
  lemma ViewPartition(rs: seq<Record>)
    ensures multiset(View(rs, Only(Feeding))) + multiset(View(rs, Only(Diaper))) == multiset(rs)
    ensures |View(rs, Only(Feeding))| + |View(rs, Only(Diaper))| == |rs|
    ensures forall i :: 0 <= i < |View(rs, Only(Feeding))| ==> View(rs, Only(Feeding))[i] !in View(rs, Only(Diaper))
  {
    FilterPartition(rs, OfKind(Feeding), OfKind(Diaper));
  }
}
