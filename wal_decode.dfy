/** Decoding of wal2json (format version 2) change records into `WalEvent`s
    (streamingSQL/src/pg_client/data.rs). */
module WalDecode {
  import opened Wrappers
  import opened JsonValue
  import opened OrderedMap

  /** The identity column of the changed row and its value. */
  datatype PKey = PKey(col: string, val: Value)

  /** The kind of change with its column map; a delete carries no columns. */
  datatype WalData = Insert(data: BTree<Value>) | Update(data: BTree<Value>) | Delete

  datatype WalEvent = WalEvent(timestamp: string, xid: I64, pkey: PKey, data: WalData)

  /** `col["name"] == name` */
  predicate NamedAs(col: Value, name: string) {
    EqualsStr(Field(col, "name"), name)
  }

  /** `columns.iter().find(|col| col["name"] == name)`, as the index of the hit. */
  function FindColumn(cols: seq<Value>, name: string): (r: Option<nat>)
    ensures r.Some? ==> r.value < |cols| && NamedAs(cols[r.value], name)
    ensures r.Some? ==> forall j :: 0 <= j < r.value ==> !NamedAs(cols[j], name)
    ensures r.None? ==> forall j :: 0 <= j < |cols| ==> !NamedAs(cols[j], name)
    decreases |cols|
  {
    if |cols| == 0 then None
    else if NamedAs(cols[0], name) then Some(0)
    else match FindColumn(cols[1..], name)
      case None => None
      case Some(i) => Some(i + 1)
  }

  /** `retrieve_pkey`: with no `identity`, the key column is named by `pk[0]` and its value
      is taken from the first entry of `columns` with that name; otherwise `identity[0]`
      gives both. Every missing piece panics. */
  function RetrievePkey(v: Value): Result<PKey> {
    if Field(v, "identity").Null? then
      var pk :- Unwrap(AsArray(Field(v, "pk")));
      var first :- At(pk, 0);
      var keyCol :- Unwrap(AsObject(first));
      var nameValue :- MapField(keyCol, "name");
      var name :- Unwrap(AsStr(nameValue));
      var cols :- Unwrap(AsArray(Field(v, "columns")));
      var index :- Unwrap(FindColumn(cols, name));
      var keyVal :- Unwrap(AsObject(cols[index]));
      var val :- MapField(keyVal, "value");
      Ok(PKey(name, val))
    else
      match AsArray(Field(v, "identity"))
      case None => Err("No primary key found")
      case Some(ids) =>
        var first :- At(ids, 0);
        var identity :- Unwrap(AsObject(first));
        var nameValue :- MapField(identity, "name");
        var name :- Unwrap(AsStr(nameValue));
        var val :- MapField(identity, "value");
        Ok(PKey(name, val))
  }

  /** `col["name"].as_str().unwrap()` */
  function ColumnName(col: Value): (r: Result<string>)
    ensures r.Ok? <==> Field(col, "name").Str?
    ensures r.Ok? ==> NamedAs(col, r.value)
  {
    Unwrap(AsStr(Field(col, "name")))
  }

  /** The map the column loop of `Insert::from_wal_json` builds from `cols`: each column's
      value inserted under its name, in order. */
  function ColumnMap(cols: seq<Value>): (r: Result<BTree<Value>>)
    ensures r.Err? ==> r.reason == UnwrapNone
    decreases |cols|
  {
    if |cols| == 0 then Ok([])
    else
      var prev :- ColumnMap(cols[..|cols| - 1]);
      var name :- ColumnName(cols[|cols| - 1]);
      Ok(Put(prev, name, Field(cols[|cols| - 1], "value")))
  }

  /** The decoding succeeds exactly when every column has a string name. */
  lemma {:induction false} ColumnMapOk(cols: seq<Value>)
    ensures ColumnMap(cols).Ok? <==> forall i :: 0 <= i < |cols| ==> Field(cols[i], "name").Str?
    decreases |cols|
  {
    if |cols| > 0 {
      var init := cols[..|cols| - 1];
      ColumnMapOk(init);
      assert forall i :: 0 <= i < |init| ==> init[i] == cols[i];
    }
  }

  /** The decoded keys are exactly the column names. */
  lemma {:induction false} ColumnMapKeys(cols: seq<Value>, k: string)
    requires ColumnMap(cols).Ok?
    ensures k in View(ColumnMap(cols).value) <==> exists i :: 0 <= i < |cols| && NamedAs(cols[i], k)
    decreases |cols|
  {
    if |cols| > 0 {
      var init := cols[..|cols| - 1];
      var last := cols[|cols| - 1];
      ColumnMapKeys(init, k);
      var prev := ColumnMap(init).value;
      var name := ColumnName(last).value;
      assert ColumnMap(cols).value == Put(prev, name, Field(last, "value"));
      assert k in View(ColumnMap(cols).value) <==> k in View(prev) || k == name;
      assert NamedAs(last, k) <==> k == name;
      NamedSplit(cols, init, k);
    }
  }

  /** Some column is named `k` exactly when one before the last is, or the last is. */
  lemma NamedSplit(cols: seq<Value>, init: seq<Value>, k: string)
    requires |cols| > 0 && init == cols[..|cols| - 1]
    ensures (exists i :: 0 <= i < |cols| && NamedAs(cols[i], k)) <==>
      (exists i :: 0 <= i < |init| && NamedAs(init[i], k)) || NamedAs(cols[|cols| - 1], k)
  {
    if exists i :: 0 <= i < |init| && NamedAs(init[i], k) {
      var i :| 0 <= i < |init| && NamedAs(init[i], k);
      assert NamedAs(cols[i], k);
    }
    if exists i :: 0 <= i < |cols| && NamedAs(cols[i], k) {
      var i :| 0 <= i < |cols| && NamedAs(cols[i], k);
      if i < |init| {
        assert NamedAs(init[i], k);
      }
    }
  }

  /** A repeated column name keeps the value of its last occurrence. */
  lemma {:induction false} ColumnMapLastWins(cols: seq<Value>, i: nat, k: string)
    requires ColumnMap(cols).Ok?
    requires i < |cols| && NamedAs(cols[i], k)
    requires forall j :: i < j < |cols| ==> !NamedAs(cols[j], k)
    ensures k in View(ColumnMap(cols).value)
    ensures View(ColumnMap(cols).value)[k] == Field(cols[i], "value")
    decreases |cols|
  {
    var init := cols[..|cols| - 1];
    if i < |init| {
      assert forall j :: i < j < |init| ==> init[j] == cols[j];
      ColumnMapLastWins(init, i, k);
    }
  }

  /** `value["columns"].as_array().unwrap()` followed by the column loop. */
  function ColumnsOf(v: Value): Result<BTree<Value>> {
    var cols :- Unwrap(AsArray(Field(v, "columns")));
    ColumnMap(cols)
  }

  /** `Insert::from_wal_json` and `Update::from_wal_json`, whose bodies are identical:
      the column map is filled entry by entry in a loop. */
  method DecodeColumns(v: Value) returns (r: Result<BTree<Value>>)
    ensures r == ColumnsOf(v)
  {
    var columns := AsArray(Field(v, "columns"));
    if columns.None? {
      return Err(UnwrapNone);
    }
    var cols := columns.value;
    var values: BTree<Value> := [];
    for i := 0 to |cols|
      invariant ColumnMap(cols[..i]) == Ok(values)
    {
      var name := AsStr(Field(cols[i], "name"));
      if name.None? {
        ColumnMapOk(cols);
        return Err(UnwrapNone);
      }
      assert cols[..i + 1][..i] == cols[..i];
      values := Put(values, name.value, Field(cols[i], "value"));
    }
    assert cols[..|cols|] == cols;
    r := Ok(values);
  }

  /** `WalData::from_wal_json`: dispatch on the action code. */
  function WalDataFromJson(v: Value): Result<WalData> {
    var action :- Unwrap(AsStr(Field(v, "action")));
    if action == "I" then
      var m :- ColumnsOf(v);
      Ok(Insert(m))
    else if action == "U" then
      var m :- ColumnsOf(v);
      Ok(Update(m))
    else if action == "D" then
      Ok(Delete)
    else
      Err("Invalid WAL data kind")
  }

  /** `WalEvent::from_wal_json`: `timestamp` and `xid` taken verbatim, then the key and the
      change. */
  function WalEventFromJson(v: Value): Result<WalEvent> {
    var timestamp :- Unwrap(AsStr(Field(v, "timestamp")));
    var xid :- Unwrap(AsI64(Field(v, "xid")));
    var pkey :- RetrievePkey(v);
    var data :- WalDataFromJson(v);
    Ok(WalEvent(timestamp, xid, pkey, data))
  }

  /** Action codes: `I`, `U` and `D` decode to the matching kind, every other action panics,
      and a delete carries no columns. */
  lemma ActionDecoding(v: Value)
    ensures WalDataFromJson(v).Ok? ==> AsStr(Field(v, "action")) in {Some("I"), Some("U"), Some("D")}
    ensures AsStr(Field(v, "action")) == Some("D") ==> WalDataFromJson(v) == Ok(Delete)
    ensures AsStr(Field(v, "action")) == Some("I") ==>
      WalDataFromJson(v) == (if ColumnsOf(v).Ok? then Ok(Insert(ColumnsOf(v).value)) else Err(UnwrapNone))
    ensures AsStr(Field(v, "action")) == Some("U") ==>
      WalDataFromJson(v) == (if ColumnsOf(v).Ok? then Ok(Update(ColumnsOf(v).value)) else Err(UnwrapNone))
  {
  }

  /** An insert and an update built from the same record carry the same column map. */
  lemma InsertUpdateAgree(v: Value, w: Value)
    requires Field(v, "columns") == Field(w, "columns")
    requires AsStr(Field(v, "action")) == Some("I") && AsStr(Field(w, "action")) == Some("U")
    ensures WalDataFromJson(v).Ok? <==> WalDataFromJson(w).Ok?
    ensures WalDataFromJson(v).Ok? ==> WalDataFromJson(v).value.data == WalDataFromJson(w).value.data
  {
  }

  /** With a null `identity`, the key column is `pk[0].name` and its value is the value of the
      first column carrying that name; without such a column the decoding panics. */
  lemma PkeyFromPk(v: Value, name: string)
    requires Field(v, "identity").Null?
    requires Field(v, "pk").Array? && |Field(v, "pk").items| > 0
    requires Field(Field(v, "pk").items[0], "name") == Str(name)
    requires Field(v, "columns").Array?
    ensures var cols := Field(v, "columns").items;
      (forall j :: 0 <= j < |cols| ==> !NamedAs(cols[j], name)) ==> RetrievePkey(v).Err?
    ensures var cols := Field(v, "columns").items;
      forall i ::
        (0 <= i < |cols| && NamedAs(cols[i], name) && "value" in cols[i].fields &&
         (forall j :: 0 <= j < i ==> !NamedAs(cols[j], name))) ==>
        RetrievePkey(v) == Ok(PKey(name, cols[i].fields["value"]))
    ensures var cols := Field(v, "columns").items;
      var found := FindColumn(cols, name);
      RetrievePkey(v).Ok? <==>
        found.Some? && cols[found.value].Object? && "value" in cols[found.value].fields
  {
    var cols := Field(v, "columns").items;
    var found := FindColumn(cols, name);
    if found.Some? {
      forall i | 0 <= i < |cols| && NamedAs(cols[i], name) && (forall j :: 0 <= j < i ==> !NamedAs(cols[j], name))
        ensures found.value == i
      {
        assert NamedAs(cols[found.value], name);
        assert found.value <= i;
      }
    }
  }

  /** With an `identity` array the key is `identity[0]`'s name and value, and the decoding
      panics exactly when that array is empty or its first entry is not an object with a
      string `name` and a `value`; an `identity` that is neither null nor an array panics. */
  lemma PkeyFromIdentity(v: Value)
    ensures !Field(v, "identity").Null? && !Field(v, "identity").Array? ==> RetrievePkey(v) == Err("No primary key found")
    ensures var id := Field(v, "identity");
      id.Array? && |id.items| > 0 && id.items[0].Object? &&
      "name" in id.items[0].fields && id.items[0].fields["name"].Str? && "value" in id.items[0].fields ==>
      RetrievePkey(v) == Ok(PKey(id.items[0].fields["name"].s, id.items[0].fields["value"]))
    ensures var id := Field(v, "identity");
      id.Array? ==>
        (RetrievePkey(v).Ok? <==>
          |id.items| > 0 && id.items[0].Object? && "name" in id.items[0].fields &&
          id.items[0].fields["name"].Str? && "value" in id.items[0].fields)
  {
  }

  /** `timestamp` must be a string and `xid` an `i64`; both are copied unchanged. */
  lemma EventHeader(v: Value)
    ensures !Field(v, "timestamp").Str? ==> WalEventFromJson(v).Err?
    ensures AsI64(Field(v, "xid")).None? ==> WalEventFromJson(v).Err?
    ensures WalEventFromJson(v).Ok? ==>
      && Field(v, "timestamp") == Str(WalEventFromJson(v).value.timestamp)
      && Field(v, "xid") == Num(Int(WalEventFromJson(v).value.xid))
      && RetrievePkey(v) == Ok(WalEventFromJson(v).value.pkey)
      && WalDataFromJson(v) == Ok(WalEventFromJson(v).value.data)
  {
  }
}
