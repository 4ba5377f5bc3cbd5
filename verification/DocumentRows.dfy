// Turning the document service's items into cache rows: malformed and
// repeated items are skipped, and visibility fails closed.
module DocumentRows {
  import opened Jsons
  import opened Texts

  datatype Row = Row(
    id: string, name: string, category: string, entityId: Option<string>, documentType: Option<string>,
    documentDate: Option<string>, confidential: bool, addedAt: Option<string>, modifiedAt: Option<string>,
    proxyUrl: string, fetchedAt: string)

  const CATEGORIES :=
    {"Estate Planning", "LLCs", "Trusts", "Tax Returns", "Insurance", "Personal records", "Other"}
  const DEFAULT_CATEGORY := "Other"

  // The texts the database driver can store. JSON can carry half of a
  // surrogate pair, which UTF-8 cannot; which texts those are is left open.
  const STORABLE: string -> bool

  predicate OptionalStorable(text: Option<string>) {
    text.Some? ==> STORABLE(text.value)
  }

  // The insert raises on anything else.
  predicate RowStorable(row: Row) {
    && STORABLE(row.id) && STORABLE(row.name) && OptionalStorable(row.entityId) && OptionalStorable(row.documentType)
    && OptionalStorable(row.documentDate) && OptionalStorable(row.addedAt) && OptionalStorable(row.modifiedAt)
  }

  // A missing field reads as null.
  function Field(fields: JsonObject, key: string): Json {
    Get(fields, key, Null)
  }

  // One URL path segment.
  predicate Segment(id: string) {
    id != "" && id != "." && id != ".." && '/' !in id
  }

  function DocumentId(fields: JsonObject): Option<string> {
    var raw := Field(fields, "id");
    var text := if raw.Str? then Some(raw.text) else if raw.Number? && raw.whole then Some(raw.digits) else None;
    if text.Some? && Segment(Strip(text.value)) then Some(Strip(text.value)) else None
  }

  function DocumentTitle(fields: JsonObject): Option<string> {
    var title := Field(fields, "title");
    if title.Str? && Strip(title.text) != "" then Some(Strip(title.text)) else None
  }

  function DocumentCategory(fields: JsonObject): string {
    var category := Field(fields, "category");
    if category.Str? && category.text in CATEGORIES then category.text else DEFAULT_CATEGORY
  }

  function OptionalText(fields: JsonObject, key: string): Option<string> {
    match Field(fields, key)
    case Str(text) => Some(text)
    case Number(digits, _) => Some(digits)
    case _ => None
  }

  function DocumentRow(item: Json, fetchedAt: string): Option<Row> {
    if !item.Object? then None else
    var id, title := DocumentId(item.fields), DocumentTitle(item.fields);
    if id.None? || title.None? then None else
    Some(Row(
      id.value, title.value, DocumentCategory(item.fields), OptionalText(item.fields, "entity_id"),
      OptionalText(item.fields, "document_type"), OptionalText(item.fields, "document_date"),
      Field(item.fields, "is_confidential") != Bool(false), OptionalText(item.fields, "created_at"),
      OptionalText(item.fields, "updated_at"), "/documents/" + id.value + "/preview", fetchedAt))
  }

  function IdsOf(rows: seq<Row>): set<string> {
    set i | 0 <= i < |rows| :: rows[i].id
  }

  // The rows a refresh writes, in item order.
  function KeptRows(items: seq<Json>, fetchedAt: string): seq<Row> {
    if items == [] then [] else
    var before := KeptRows(items[..|items| - 1], fetchedAt);
    Keep(before, DocumentRow(items[|items| - 1], fetchedAt))
  }

  function Keep(before: seq<Row>, row: Option<Row>): seq<Row> {
    if row.None? || row.value.id in IdsOf(before) then before else before + [row.value]
  }

  lemma KeptStep(items: seq<Json>, fetchedAt: string, n: nat)
    requires n < |items|
    ensures KeptRows(items[..n + 1], fetchedAt)
         == Keep(KeptRows(items[..n], fetchedAt), DocumentRow(items[n], fetchedAt))
  {
    assert items[..n + 1][..n] == items[..n];
  }

  function TableOf(rows: seq<Row>): map<string, Row> {
    if rows == [] then map[] else TableOf(rows[..|rows| - 1])[rows[|rows| - 1].id := rows[|rows| - 1]]
  }

  lemma NothingKept(items: seq<Json>, fetchedAt: string)
    ensures KeptRows(items[..0], fetchedAt) == [] && IdsOf([]) == {} && TableOf([]) == map[]
  {
  }

  lemma TableSnoc(rows: seq<Row>, row: Row)
    ensures TableOf(rows + [row]) == TableOf(rows)[row.id := row]
  {
    assert (rows + [row])[..|rows|] == rows;
  }

  class Connection {
    var documents: map<string, Row>

    constructor ()
      ensures documents == map[]
    {
      documents := map[];
    }

    // None is an exception at the first row that cannot be stored.
    method WriteDocuments(items: seq<Json>, fetchedAt: string) returns (count: Option<nat>)
      modifies this
      ensures var rows := KeptRows(items, fetchedAt);
        && documents == TableOf(Stored(rows))
        && count == if forall i :: 0 <= i < |rows| ==> RowStorable(rows[i]) then Some(|rows|) else None
    {
      documents := map[];
      var seen: set<string> := {};
      hide DocumentRow, KeptRows, IdsOf, TableOf, RowStorable, Stored;
      NothingKept(items, fetchedAt);
      for n := 0 to |items|
        invariant seen == IdsOf(KeptRows(items[..n], fetchedAt))
        invariant documents == TableOf(KeptRows(items[..n], fetchedAt))
        invariant AllStorable(KeptRows(items[..n], fetchedAt))
      {
        hide AllStorable;
        var row := DocumentRow(items[n], fetchedAt);
        KeptStep(items, fetchedAt, n);
        if row.None? { continue; }
        if row.value.id in seen { continue; }
        IdsSnoc(KeptRows(items[..n], fetchedAt), row.value);
        TableSnoc(KeptRows(items[..n], fetchedAt), row.value);
        StoredSnoc(KeptRows(items[..n], fetchedAt), row.value);
        seen := seen + {row.value.id};
        if !RowStorable(row.value) {
          KeptGrows(items, fetchedAt, n + 1);
          StopsAt(KeptRows(items[..n], fetchedAt), row.value, KeptRows(items, fetchedAt));
          return None;
        }
        documents := documents[row.value.id := row.value];
      }
      assert items[..|items|] == items;
      KeptAreDistinct(items, fetchedAt);
      IdsCount(KeptRows(items, fetchedAt));
      StoredAll(KeptRows(items, fetchedAt));
      count := Some(|seen|);
    }
  }

  predicate AllStorable(rows: seq<Row>) {
    forall i :: 0 <= i < |rows| ==> RowStorable(rows[i])
  }

  // The rows in front of the first that cannot be stored.
  function Stored(rows: seq<Row>): seq<Row> {
    if rows == [] || !RowStorable(rows[0]) then [] else [rows[0]] + Stored(rows[1..])
  }

  lemma {:induction false} StoredAll(rows: seq<Row>)
    requires AllStorable(rows)
    ensures Stored(rows) == rows
  {
    if rows != [] { StoredAll(rows[1..]); }
  }

  lemma StoredSnoc(rows: seq<Row>, row: Row)
    requires AllStorable(rows)
    ensures RowStorable(row) ==> AllStorable(rows + [row])
  {
  }

  lemma {:induction false} StopsAt(front: seq<Row>, row: Row, rows: seq<Row>)
    requires AllStorable(front) && !RowStorable(row) && front + [row] <= rows
    ensures Stored(rows) == front && !AllStorable(rows)
  {
    if front == [] {
      assert rows[0] == (front + [row])[0];
    } else {
      assert rows[0] == (front + [row])[0] == front[0];
      StopsAt(front[1..], row, rows[1..]);
    }
    assert rows[|front|] == (front + [row])[|front|];
  }

  // Later items add rows behind.
  lemma {:induction false} KeptGrows(items: seq<Json>, fetchedAt: string, n: nat)
    requires n <= |items|
    ensures KeptRows(items[..n], fetchedAt) <= KeptRows(items, fetchedAt)
    decreases |items| - n
  {
    hide DocumentRow, KeptRows;
    if n < |items| {
      KeptGrows(items, fetchedAt, n + 1);
      KeptStep(items, fetchedAt, n);
    } else {
      assert items[..n] == items;
    }
  }

  lemma IdsSnoc(rows: seq<Row>, row: Row)
    ensures IdsOf(rows + [row]) == IdsOf(rows) + {row.id}
  {
    var more := rows + [row];
    assert more[|rows|] == row;
    assert forall i :: 0 <= i < |rows| ==> more[i] == rows[i];
    forall id | id in IdsOf(rows) + {row.id} ensures id in IdsOf(more) {
      if id in IdsOf(rows) {
        var i :| 0 <= i < |rows| && rows[i].id == id;
        assert more[i].id == id;
      }
    }
  }

  ghost predicate Distinct(rows: seq<Row>) {
    forall i, j :: 0 <= i < j < |rows| ==> rows[i].id != rows[j].id
  }

  lemma {:induction false} IdsCount(rows: seq<Row>)
    requires Distinct(rows)
    ensures |IdsOf(rows)| == |rows|
  {
    if rows != [] {
      var front, last := rows[..|rows| - 1], rows[|rows| - 1];
      IdsCount(front);
      IdsSnoc(front, last);
      assert rows == front + [last];
      assert last.id !in IdsOf(front);
    }
  }

  lemma {:induction false} KeptAreDistinct(items: seq<Json>, fetchedAt: string)
    ensures Distinct(KeptRows(items, fetchedAt))
  {
    if items != [] {
      KeptAreDistinct(items[..|items| - 1], fetchedAt);
      hide DocumentRow;
      var before := KeptRows(items[..|items| - 1], fetchedAt);
      assert forall i :: 0 <= i < |before| ==> before[i].id in IdsOf(before);
    }
  }

  // ------------------------------------------------------------------
  // What ends up in the table
  // ------------------------------------------------------------------

  // Json i is the first usable one with this id.
  ghost predicate FirstWith(items: seq<Json>, fetchedAt: string, i: nat, row: Row) {
    && i < |items| && DocumentRow(items[i], fetchedAt) == Some(row)
    && forall j :: 0 <= j < i ==> !Yields(items[j], fetchedAt, row.id)
  }

  predicate Yields(item: Json, fetchedAt: string, id: string) {
    DocumentRow(item, fetchedAt).Some? && DocumentRow(item, fetchedAt).value.id == id
  }

  lemma {:induction false} KeptIsFirst(items: seq<Json>, fetchedAt: string, row: Row)
    ensures row in KeptRows(items, fetchedAt) <==> exists i: nat :: FirstWith(items, fetchedAt, i, row)
  {
    hide DocumentRow;
    if items == [] {
      assert forall i: nat :: !FirstWith(items, fetchedAt, i, row);
    } else {
      var n := |items| - 1;
      var front := items[..n];
      KeptIsFirst(front, fetchedAt, row);
      IdKnown(front, fetchedAt, row.id);
      forall i: nat | i < n ensures FirstWith(items, fetchedAt, i, row) == FirstWith(front, fetchedAt, i, row) {
        FirstInFront(items, fetchedAt, i, row);
      }
      LastIsFirst(items, fetchedAt, row);
    }
  }

  lemma FirstInFront(items: seq<Json>, fetchedAt: string, i: nat, row: Row)
    requires i < |items| - 1
    ensures FirstWith(items, fetchedAt, i, row) == FirstWith(items[..|items| - 1], fetchedAt, i, row)
  {
    hide DocumentRow, Yields;
    var front := items[..|items| - 1];
    assert forall j :: 0 <= j <= i ==> front[j] == items[j];
  }

  lemma LastIsFirst(items: seq<Json>, fetchedAt: string, row: Row)
    requires items != []
    ensures FirstWith(items, fetchedAt, |items| - 1, row) <==>
      DocumentRow(items[|items| - 1], fetchedAt) == Some(row)
      && row.id !in IdsOf(KeptRows(items[..|items| - 1], fetchedAt))
  {
    hide DocumentRow, Yields, KeptRows;
    var n := |items| - 1;
    var front := items[..n];
    IdKnown(front, fetchedAt, row.id);
    assert forall j :: 0 <= j < n ==> front[j] == items[j];
  }

  // An id is in the table exactly when some item offers it.
  lemma {:induction false} IdKnown(items: seq<Json>, fetchedAt: string, id: string)
    ensures id in IdsOf(KeptRows(items, fetchedAt)) <==> exists j :: 0 <= j < |items| && Yields(items[j], fetchedAt, id)
  {
    if items != [] {
      hide DocumentRow, KeptRows, Yields;
      var n := |items| - 1;
      IdKnown(items[..n], fetchedAt, id);
      KeptStep(items, fetchedAt, n);
      assert items[..n + 1] == items;
      hide IdsOf, Keep;
      KeepKnows(KeptRows(items[..n], fetchedAt), DocumentRow(items[n], fetchedAt), id);
      OfferedLast(items, fetchedAt, id);
    } else {
      assert items == [];
    }
  }

  ghost predicate Offered(items: seq<Json>, fetchedAt: string, id: string) {
    exists j :: 0 <= j < |items| && Yields(items[j], fetchedAt, id)
  }

  lemma OfferedLast(items: seq<Json>, fetchedAt: string, id: string)
    requires items != []
    ensures Offered(items, fetchedAt, id) <==>
      || Offered(items[..|items| - 1], fetchedAt, id)
      || (DocumentRow(items[|items| - 1], fetchedAt).Some? && DocumentRow(items[|items| - 1], fetchedAt).value.id == id)
  {
    hide DocumentRow;
    var n := |items| - 1;
    assert forall j :: 0 <= j < n ==> items[..n][j] == items[j];
    assert Yields(items[n], fetchedAt, id) <==>
      DocumentRow(items[n], fetchedAt).Some? && DocumentRow(items[n], fetchedAt).value.id == id;
  }

  lemma KeepKnows(before: seq<Row>, row: Option<Row>, id: string)
    ensures id in IdsOf(Keep(before, row)) <==> id in IdsOf(before) || (row.Some? && row.value.id == id)
  {
    hide IdsOf;
    if row.Some? { IdsSnoc(before, row.value); }
  }

  lemma {:induction false} TableHolds(rows: seq<Row>, id: string)
    requires Distinct(rows)
    ensures id in TableOf(rows) <==> id in IdsOf(rows)
    ensures id in TableOf(rows) ==> TableOf(rows)[id] in rows && TableOf(rows)[id].id == id
  {
    if rows != [] {
      var front, last := rows[..|rows| - 1], rows[|rows| - 1];
      TableHolds(front, id);
      IdsSnoc(front, last);
      assert rows == front + [last];
    }
  }

  // The stored row of an id is the row of the first usable item with that id.
  lemma StoredIsFirst(items: seq<Json>, fetchedAt: string, id: string)
    ensures id in TableOf(KeptRows(items, fetchedAt)) <==> exists j :: 0 <= j < |items| && Yields(items[j], fetchedAt, id)
    ensures id in TableOf(KeptRows(items, fetchedAt)) ==>
      exists i: nat :: FirstWith(items, fetchedAt, i, TableOf(KeptRows(items, fetchedAt))[id])
  {
    hide DocumentRow, Yields, FirstWith;
    var rows := KeptRows(items, fetchedAt);
    KeptAreDistinct(items, fetchedAt);
    TableHolds(rows, id);
    IdKnown(items, fetchedAt, id);
    if id in TableOf(rows) { KeptIsFirst(items, fetchedAt, TableOf(rows)[id]); }
  }

  // A document is visible to viewers only when the first usable item with its
  // id says false, and its id always forms one path segment.
  lemma VisibleOnlyWhenFalse(items: seq<Json>, fetchedAt: string, id: string) returns (i: nat)
    requires id in TableOf(KeptRows(items, fetchedAt))
    ensures i < |items| && items[i].Object? && DocumentId(items[i].fields) == Some(id) && Segment(id)
    ensures TableOf(KeptRows(items, fetchedAt))[id].confidential
       <==> Field(items[i].fields, "is_confidential") != Bool(false)
    ensures TableOf(KeptRows(items, fetchedAt))[id].category in CATEGORIES
    ensures forall j :: 0 <= j < i ==> !Yields(items[j], fetchedAt, id)
  {
    var rows := KeptRows(items, fetchedAt);
    KeptAreDistinct(items, fetchedAt);
    TableHolds(rows, id);
    StoredIsFirst(items, fetchedAt, id);
    i :| FirstWith(items, fetchedAt, i, TableOf(rows)[id]);
  }

  // ------------------------------------------------------------------
  // A document, written out and read
  // ------------------------------------------------------------------

  datatype DocumentText = DocumentText(
    id: string, title: string, category: string, entityId: string, documentType: string, documentDate: string,
    confidential: bool, createdAt: string, updatedAt: string)

  function ItemOf(d: DocumentText): Json {
    Object(map[
      "id" := Str(d.id), "title" := Str(d.title), "category" := Str(d.category), "entity_id" := Str(d.entityId),
      "document_type" := Str(d.documentType), "document_date" := Str(d.documentDate),
      "is_confidential" := Bool(d.confidential), "created_at" := Str(d.createdAt), "updated_at" := Str(d.updatedAt)])
  }

  // Every field of an item ends in its own column; id and title are stripped,
  // and a category that is not one of the seven becomes the default.
  lemma ItemReadsBack(d: DocumentText, fetchedAt: string)
    requires Strip(d.id) !in {"", ".", ".."} && '/' !in Strip(d.id) && Strip(d.title) != ""
    ensures var row := DocumentRow(ItemOf(d), fetchedAt);
      && row.Some? && row.value.id == Strip(d.id) && row.value.name == Strip(d.title)
      && row.value.category == (if d.category in CATEGORIES then d.category else "Other")
      && row.value.entityId == Some(d.entityId) && row.value.documentType == Some(d.documentType)
      && row.value.documentDate == Some(d.documentDate) && row.value.confidential == d.confidential
      && row.value.addedAt == Some(d.createdAt) && row.value.modifiedAt == Some(d.updatedAt)
      && row.value.proxyUrl == "/documents/" + Strip(d.id) + "/preview" && row.value.fetchedAt == fetchedAt
  {
    ItemFields(d);
    assert ItemOf(d).Object?;
    hide Strip, ItemOf, Field;
  }

  lemma ItemFields(d: DocumentText)
    ensures var o := ItemOf(d).fields;
      && Field(o, "id") == Str(d.id) && Field(o, "title") == Str(d.title) && Field(o, "category") == Str(d.category)
      && Field(o, "entity_id") == Str(d.entityId) && Field(o, "document_type") == Str(d.documentType)
      && Field(o, "document_date") == Str(d.documentDate) && Field(o, "is_confidential") == Bool(d.confidential)
      && Field(o, "created_at") == Str(d.createdAt) && Field(o, "updated_at") == Str(d.updatedAt)
  {
  }

  // The row can be stored exactly when each of these texts can.
  lemma ItemStorable(d: DocumentText, fetchedAt: string)
    requires Strip(d.id) !in {"", ".", ".."} && '/' !in Strip(d.id) && Strip(d.title) != ""
    ensures DocumentRow(ItemOf(d), fetchedAt).Some?
    ensures RowStorable(DocumentRow(ItemOf(d), fetchedAt).value) <==>
      forall t :: t in {Strip(d.id), Strip(d.title), d.entityId, d.documentType, d.documentDate, d.createdAt, d.updatedAt} ==>
        STORABLE(t)
  {
    ItemReadsBack(d, fetchedAt);
    hide Strip, DocumentRow, ItemOf;
  }

  // Nothing but an object with a usable id and title becomes a row.
  lemma UnusableItems(item: Json, fetchedAt: string)
    ensures !item.Object? ==> DocumentRow(item, fetchedAt) == None
    ensures item.Object? && ("id" !in item.fields || !(item.fields["id"].Str? || item.fields["id"].Number?)) ==>
      DocumentRow(item, fetchedAt) == None
    ensures item.Object? && ("title" !in item.fields || !item.fields["title"].Str?) ==> DocumentRow(item, fetchedAt) == None
  {
    hide Strip;
  }

  // An id that is not one segment of a path is not usable.
  lemma OddIdsAreRefused(fields: JsonObject, id: string, fetchedAt: string)
    requires "id" in fields && fields["id"] == Str(id)
    requires Strip(id) in {"", ".", ".."} || '/' in Strip(id)
    ensures DocumentRow(Object(fields), fetchedAt) == None
  {
    hide Strip;
  }

  // A flag that is missing, or anything but a JSON false, hides the document.
  lemma FlagFailsClosed(fields: JsonObject, fetchedAt: string)
    requires DocumentRow(Object(fields), fetchedAt).Some?
    ensures DocumentRow(Object(fields), fetchedAt).value.confidential <==>
      !("is_confidential" in fields && fields["is_confidential"] == Bool(false))
  {
    hide Strip;
  }
}
