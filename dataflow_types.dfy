/** Normalisation of decoded WAL events into signed, keyed deltas, and the `DBRecord`
    column-map algebra with its SQL rendering (streamingSQL/src/core/types/dataflow_types.rs). */
module DataflowTypes {
  import opened Wrappers
  import opened Text
  import opened JsonValue
  import opened OrderedMap
  import opened WalDecode

  /** `DefaultHasher` applied to a string key: opaque, so supplied by the caller. */
  type Hasher = string -> U64

  /** A row: column name to JSON value, iterated in ascending column order. */
  type DBRecord = BTree<Value>

  datatype Keys = Keys(primary: U64, foreign: Option<U64>)

  /** `DataflowData(key, (foreign key, record))` */
  datatype DataflowData = DataflowData(key: U64, foreign: Option<U64>, record: DBRecord)

  /** One delta: an element, the logical time and the multiplicity change. */
  datatype DataflowInput = DataflowInput(element: DataflowData, time: U64, change: int)

  datatype RecordType = InsertRecord | DeleteRecord

  datatype Ordering = Less | Equal | Greater

  // ---------------------------------------------------------------------------------------
  // Keys

  /** `key_to_usize`: a non-negative integer that fits in `u64` is its own key, a string is
      hashed, anything else (negative numbers, floats, null, bool, arrays, objects) panics. */
  function KeyToUsize(v: Value, hash: Hasher): (r: Result<U64>)
    ensures v.Str? ==> r == Ok(hash(v.s))
    ensures v.Num? ==> r == Unwrap(AsU64(v))
    ensures !v.Str? && !v.Num? ==> r.Err?
  {
    match v
    case Num(_) => Unwrap(AsU64(v))
    case Str(s) => Ok(hash(s))
    case _ => Err("Failed to parse primary key")
  }

  /** The column map an event carries; a delete carries none. */
  function DataOf(d: WalData): DBRecord {
    match d
    case Insert(m) => m
    case Update(m) => m
    case Delete => []
  }

  /** `DBRecord::get`: the column's value, `Null` when the column is absent. */
  function RecordGet(r: DBRecord, key: string): (v: Value)
    ensures key in View(r) ==> v == View(r)[key]
    ensures key !in View(r) ==> v == Null
  {
    match Get(r, key)
    case Some(x) => x
    case None => Null
  }

  /** `get_required_key`: the primary key from the identity value and, when a column is
      requested, the foreign key from that column of the event's data. */
  function GetRequiredKey(requiredKey: Option<string>, e: WalEvent, hash: Hasher): Result<Keys> {
    var foreignValue := match requiredKey
      case Some(col) => RecordGet(DataOf(e.data), col)
      case None => Null;
    var primary :- KeyToUsize(e.pkey.val, hash);
    if foreignValue.Null? then
      Ok(Keys(primary, None))
    else
      var foreign :- KeyToUsize(foreignValue, hash);
      Ok(Keys(primary, Some(foreign)))
  }

  /** The primary key is `key_to_usize` of the identity value. The foreign key is absent
      exactly when no column is requested, the event is a delete, or the requested column
      is missing or null; otherwise it is `key_to_usize` of that column. */
  lemma ForeignKeyRule(requiredKey: Option<string>, e: WalEvent, hash: Hasher)
    ensures GetRequiredKey(requiredKey, e, hash).Ok? ==>
      KeyToUsize(e.pkey.val, hash) == Ok(GetRequiredKey(requiredKey, e, hash).value.primary)
    ensures GetRequiredKey(requiredKey, e, hash).Ok? ==>
      (GetRequiredKey(requiredKey, e, hash).value.foreign.None? <==>
        requiredKey.None? || e.data.Delete? || RecordGet(e.data.data, requiredKey.value) == Null)
    ensures requiredKey.Some? && !e.data.Delete? && RecordGet(e.data.data, requiredKey.value) != Null ==>
      var fk := KeyToUsize(RecordGet(e.data.data, requiredKey.value), hash);
      GetRequiredKey(requiredKey, e, hash).Ok? <==> KeyToUsize(e.pkey.val, hash).Ok? && fk.Ok?
    ensures (requiredKey.Some? && !e.data.Delete? && RecordGet(e.data.data, requiredKey.value) != Null &&
      GetRequiredKey(requiredKey, e, hash).Ok?) ==>
      GetRequiredKey(requiredKey, e, hash).value.foreign ==
        Some(KeyToUsize(RecordGet(e.data.data, requiredKey.value), hash).value)
  {
  }

  /** `Keys::swap`: exchanges the primary and the foreign key; panics without a foreign key. */
  function Swap(k: Keys): (r: Result<Keys>)
    ensures r.Ok? <==> k.foreign.Some?
    ensures r.Ok? ==> r.value.primary == k.foreign.value && r.value.foreign == Some(k.primary)
  {
    match k.foreign
    case Some(f) => Ok(Keys(f, Some(k.primary)))
    case None => Err(UnwrapNone)
  }

  /** Swapping twice gives back the original keys. */
  lemma SwapTwice(k: Keys)
    requires k.foreign.Some?
    ensures Swap(k).Ok? && Swap(Swap(k).value) == Ok(k)
  {
  }

  /** `IntoIterator for DataflowData`: the key, then the foreign key when there is one. */
  function DataKeys(d: DataflowData): (ks: seq<U64>)
    ensures |ks| == if d.foreign.Some? then 2 else 1
    ensures ks[0] == d.key && (d.foreign.Some? ==> ks[1] == d.foreign.value)
  {
    match d.foreign
    case Some(f) => [d.key, f]
    case None => [d.key]
  }

  // ---------------------------------------------------------------------------------------
  // Deltas

  /** `usize::try_from(xid).expect(..)`: a negative time panics. */
  function TimeOf(x: int): (r: Result<U64>)
    requires x < U64Limit
    ensures r.Ok? <==> x >= 0
    ensures r.Ok? ==> r.value == x
  {
    if x >= 0 then Ok(x) else Err("Failed to convert time")
  }

  /** The deltas one event contributes (one iteration of the loop in `from_wal_event`). */
  function EventDeltas(e: WalEvent, requiredKey: Option<string>, hash: Hasher): Result<seq<DataflowInput>> {
    var keys :- GetRequiredKey(requiredKey, e, hash);
    match e.data
    case Insert(m) =>
      var t :- TimeOf(e.xid);
      Ok([DataflowInput(DataflowData(keys.primary, keys.foreign, m), t, 1)])
    case Update(m) =>
      var retractAt :- TimeOf(e.xid - 1);
      var assertAt :- TimeOf(e.xid);
      Ok([DataflowInput(DataflowData(keys.primary, keys.foreign, []), retractAt, -1),
          DataflowInput(DataflowData(keys.primary, keys.foreign, m), assertAt, 1)])
    case Delete =>
      var t :- TimeOf(e.xid);
      Ok([DataflowInput(DataflowData(keys.primary, keys.foreign, []), t, -1)])
  }

  /** An insert yields exactly one `+1` delta at time `xid` carrying the inserted columns. */
  lemma InsertDelta(e: WalEvent, requiredKey: Option<string>, hash: Hasher)
    requires e.data.Insert?
    ensures var r := EventDeltas(e, requiredKey, hash);
      r.Ok? <==> GetRequiredKey(requiredKey, e, hash).Ok? && e.xid >= 0
    ensures var r := EventDeltas(e, requiredKey, hash);
      var keys := GetRequiredKey(requiredKey, e, hash);
      r.Ok? ==> r.value == [DataflowInput(DataflowData(keys.value.primary, keys.value.foreign, e.data.data), e.xid, 1)]
  {
  }

  /** An update yields a `-1` delta with an empty record at time `xid - 1`, then a `+1` delta
      with the new columns at time `xid`; an `xid` below 1 panics. */
  lemma UpdateDeltas(e: WalEvent, requiredKey: Option<string>, hash: Hasher)
    requires e.data.Update?
    ensures var r := EventDeltas(e, requiredKey, hash);
      r.Ok? <==> GetRequiredKey(requiredKey, e, hash).Ok? && e.xid >= 1
    ensures var r := EventDeltas(e, requiredKey, hash);
      var keys := GetRequiredKey(requiredKey, e, hash);
      r.Ok? ==> r.value == [
        DataflowInput(DataflowData(keys.value.primary, keys.value.foreign, []), e.xid - 1, -1),
        DataflowInput(DataflowData(keys.value.primary, keys.value.foreign, e.data.data), e.xid, 1)]
  {
  }

  /** A delete yields exactly one `-1` delta with an empty record at time `xid`. */
  lemma DeleteDelta(e: WalEvent, requiredKey: Option<string>, hash: Hasher)
    requires e.data.Delete?
    ensures var r := EventDeltas(e, requiredKey, hash);
      r.Ok? <==> GetRequiredKey(requiredKey, e, hash).Ok? && e.xid >= 0
    ensures var r := EventDeltas(e, requiredKey, hash);
      var keys := GetRequiredKey(requiredKey, e, hash);
      r.Ok? ==> r.value == [DataflowInput(DataflowData(keys.value.primary, keys.value.foreign, []), e.xid, -1)]
  {
  }

  /** What `from_wal_event` computes: the events' deltas concatenated in event order; the
      first event that panics decides the outcome. */
  function Normalize(events: seq<WalEvent>, requiredKey: Option<string>, hash: Hasher): Result<seq<DataflowInput>> {
    FlatMap(events, (e: WalEvent) => EventDeltas(e, requiredKey, hash))
  }

  /** Normalising a concatenation is normalising the parts in order. */
  lemma NormalizeConcat(a: seq<WalEvent>, b: seq<WalEvent>, requiredKey: Option<string>, hash: Hasher)
    ensures Normalize(a + b, requiredKey, hash) == Then(Normalize(a, requiredKey, hash), Normalize(b, requiredKey, hash))
  {
    FlatMapAppend(a, b, (e: WalEvent) => EventDeltas(e, requiredKey, hash));
  }

  /** The number of deltas a run of events yields when it succeeds. */
  function DeltaCount(events: seq<WalEvent>): nat
    decreases |events|
  {
    if |events| == 0 then 0
    else DeltaCount(events[..|events| - 1]) + (if events[|events| - 1].data.Update? then 2 else 1)
  }

  /** A successful normalisation yields `#inserts + 2 * #updates + #deletes` deltas. */
  lemma {:induction false} NormalizeLength(events: seq<WalEvent>, requiredKey: Option<string>, hash: Hasher)
    requires Normalize(events, requiredKey, hash).Ok?
    ensures |Normalize(events, requiredKey, hash).value| == DeltaCount(events)
    decreases |events|
  {
    if |events| > 0 {
      NormalizeLength(events[..|events| - 1], requiredKey, hash);
    }
  }

  /** A failing event ends the whole run with its own failure. */
  lemma NormalizeStopsAt(events: seq<WalEvent>, i: nat, requiredKey: Option<string>, hash: Hasher)
    requires i < |events| && Normalize(events[..i], requiredKey, hash).Ok?
    requires EventDeltas(events[i], requiredKey, hash).Err?
    ensures Normalize(events, requiredKey, hash) == EventDeltas(events[i], requiredKey, hash)
  {
    var upTo := events[..i + 1];
    NormalizeSnoc(events[..i], events[i], requiredKey, hash);
    assert events[..i] + [events[i]] == upTo;
    NormalizeConcat(upTo, events[i + 1..], requiredKey, hash);
    assert upTo + events[i + 1..] == events;
  }

  /** One more event appends its deltas, or fails with its failure. */
  lemma NormalizeSnoc(events: seq<WalEvent>, e: WalEvent, requiredKey: Option<string>, hash: Hasher)
    ensures Normalize(events + [e], requiredKey, hash) ==
      Then(Normalize(events, requiredKey, hash), EventDeltas(e, requiredKey, hash))
  {
    FlatMapStep(events + [e], |events|, (e: WalEvent) => EventDeltas(e, requiredKey, hash));
    assert (events + [e])[..|events|] == events;
  }

  /** The deltas of one event, pushed in the order the source pushes them. */
  method PushDeltas(input: seq<DataflowInput>, e: WalEvent, requiredKey: Option<string>, hash: Hasher)
    returns (r: Result<seq<DataflowInput>>)
    ensures r == Then(Ok(input), EventDeltas(e, requiredKey, hash))
  {
    var keys :- GetRequiredKey(requiredKey, e, hash);
    match e.data {
      case Insert(m) =>
        if e.xid < 0 {
          return Err("Failed to convert time");
        }
        r := Ok(input + [DataflowInput(DataflowData(keys.primary, keys.foreign, m), e.xid, 1)]);
      case Update(m) =>
        if e.xid - 1 < 0 {
          return Err("Failed to convert time");
        }
        var retraction := DataflowInput(DataflowData(keys.primary, keys.foreign, []), e.xid - 1, -1);
        var assertion := DataflowInput(DataflowData(keys.primary, keys.foreign, m), e.xid, 1);
        var retracted := input + [retraction];
        assert retracted + [assertion] == input + [retraction, assertion];
        r := Ok(retracted + [assertion]);
      case Delete =>
        if e.xid < 0 {
          return Err("Failed to convert time");
        }
        r := Ok(input + [DataflowInput(DataflowData(keys.primary, keys.foreign, []), e.xid, -1)]);
    }
  }

  /** `DataflowInput::from_wal_event`: pushes each event's deltas onto `input` in a loop. */
  method FromWalEvent(events: seq<WalEvent>, requiredKey: Option<string>, hash: Hasher)
    returns (r: Result<seq<DataflowInput>>)
    ensures r == Normalize(events, requiredKey, hash)
  {
    var input: seq<DataflowInput> := [];
    for i := 0 to |events|
      invariant Normalize(events[..i], requiredKey, hash) == Ok(input)
    {
      assert events[..i + 1][..i] == events[..i];
      var next := PushDeltas(input, events[i], requiredKey, hash);
      if next.Err? {
        NormalizeStopsAt(events, i, requiredKey, hash);
        return next;
      }
      input := next.value;
    }
    assert events[..|events|] == events;
    r := Ok(input);
  }

  // ---------------------------------------------------------------------------------------
  // Equality, ordering and hashing of `DataflowData`

  function CompareInts(a: int, b: int): Ordering {
    if a < b then Less else if a == b then Equal else Greater
  }

  /** `PartialEq`: only the key is compared. */
  predicate DataEq(a: DataflowData, b: DataflowData) {
    a.key == b.key
  }

  /** `Ord`: by key. */
  function DataCmp(a: DataflowData, b: DataflowData): Ordering {
    CompareInts(a.key, b.key)
  }

  /** `Hash`: what is fed to the hasher, the key alone. */
  function DataHashInput(a: DataflowData): U64 {
    a.key
  }

  /** Equality, ordering and hashing agree: `cmp` says `Equal` exactly for equal elements,
      equal elements hash alike, and the order is antisymmetric. */
  lemma DataOrderConsistent(a: DataflowData, b: DataflowData)
    ensures DataCmp(a, b) == Equal <==> DataEq(a, b)
    ensures DataEq(a, b) ==> DataHashInput(a) == DataHashInput(b)
    ensures DataCmp(a, b) == Less <==> DataCmp(b, a) == Greater
  {
  }

  // ---------------------------------------------------------------------------------------
  // Record kinds

  /** The enum discriminants `Insert = 1`, `Delete = -1`. */
  function Discriminant(t: RecordType): int {
    match t
    case InsertRecord => 1
    case DeleteRecord => -1
  }

  /** `RecordType::from_value`: 1 and -1 are the two kinds, any other change panics. */
  function RecordTypeFromValue(v: int): (r: Result<RecordType>)
    ensures r.Ok? <==> v == 1 || v == -1
    ensures r.Ok? ==> Discriminant(r.value) == v
  {
    if v == 1 then Ok(InsertRecord)
    else if v == -1 then Ok(DeleteRecord)
    else Err("Invalid RecordType")
  }

  /** `from_value` inverts the discriminant. */
  lemma RecordTypeRoundTrip(t: RecordType)
    ensures RecordTypeFromValue(Discriminant(t)) == Ok(t)
  {
  }

  // ---------------------------------------------------------------------------------------
  // Map algebra

  /** `DBRecord::get_key_for_value`: the first column, in ascending order, whose value is the
      integer `value`. */
  method GetKeyForValue(r: DBRecord, value: U64) returns (k: Option<string>)
    ensures k.None? ==> forall i :: 0 <= i < |r| ==> AsU64(r[i].1) != Some(value)
    ensures k.Some? ==> exists i :: (0 <= i < |r| && r[i].0 == k.value && AsU64(r[i].1) == Some(value) &&
      forall j :: 0 <= j < i ==> AsU64(r[j].1) != Some(value))
  {
    for i := 0 to |r|
      invariant forall j :: 0 <= j < i ==> AsU64(r[j].1) != Some(value)
    {
      if AsU64(r[i].1) == Some(value) {
        return Some(r[i].0);
      }
    }
    return None;
  }

  /** `DBRecord::merge`: `append` moves every column of `other` into the receiver,
      overwriting columns it already has, and the receiver is then cloned. `updated` is the
      receiver after the call and `merged` the returned clone: both are the union. */
  method Merge(self: DBRecord, other: DBRecord) returns (updated: DBRecord, merged: DBRecord)
    ensures View(updated) == View(self) + View(other)
    ensures merged == updated
  {
    updated := self;
    for i := 0 to |other|
      invariant View(updated) == View(self) + View(other[..i])
    {
      ViewPrefixStep(other, i);
      UnionUpdate(View(self), View(other[..i]), other[i].0, other[i].1);
      updated := Put(updated, other[i].0, other[i].1);
    }
    assert other[..|other|] == other;
    merged := updated;
  }

  /** Overwriting a key after a union is overwriting it in the right-hand map. */
  lemma UnionUpdate<K, V>(a: map<K, V>, b: map<K, V>, k: K, v: V)
    ensures (a + b)[k := v] == a + b[k := v]
  {
  }

  /** Renaming one more column appends it: every renamed key so far lies below the next. */
  lemma PrefixKeysStep(r: DBRecord, prefix: string, out: DBRecord, i: nat)
    requires i < |r| && |out| == i
    requires forall j :: 0 <= j < i ==> out[j] == (prefix + "." + r[j].0, r[j].1)
    ensures Put(out, prefix + "." + r[i].0, r[i].1) == out + [(prefix + "." + r[i].0, r[i].1)]
  {
    var k := prefix + "." + r[i].0;
    forall j | 0 <= j < |out|
      ensures Below(out[j].0, k)
    {
      BelowCommonPrefix(prefix + ".", r[j].0, r[i].0);
    }
    PutAbove(out, k, r[i].1);
  }

  /** `DBRecord::prefix_keys`: every column `k` renamed to `prefix.k`, values, order and size
      unchanged. */
  method PrefixKeys(r: DBRecord, prefix: string) returns (out: DBRecord)
    ensures |out| == |r|
    ensures forall i :: 0 <= i < |r| ==> out[i] == (prefix + "." + r[i].0, r[i].1)
  {
    out := [];
    for i := 0 to |r|
      invariant |out| == i
      invariant forall j :: 0 <= j < i ==> out[j] == (prefix + "." + r[j].0, r[j].1)
    {
      var k := prefix + "." + r[i].0;
      PrefixKeysStep(r, prefix, out, i);
      ghost var before := out;
      out := Put(out, k, r[i].1);
      assert out == before + [(k, r[i].1)];
      assert forall j :: 0 <= j < i ==> out[j] == before[j];
    }
  }

  /** `DBRecord::pick`: exactly the requested columns that are present. */
  method Pick(r: DBRecord, keys: seq<string>) returns (out: DBRecord)
    ensures View(out) == map k | k in View(r) && k in keys :: View(r)[k]
  {
    out := [];
    for i := 0 to |keys|
      invariant View(out) == map k | k in View(r) && k in keys[..i] :: View(r)[k]
    {
      assert keys[..i + 1] == keys[..i] + [keys[i]];
      var found := Get(r, keys[i]);
      if found.Some? {
        out := Put(out, keys[i], found.value);
      }
    }
    assert keys[..|keys|] == keys;
  }

  // ---------------------------------------------------------------------------------------
  // SQL rendering

  /** The text one value contributes to an `INSERT`: numbers and booleans bare, strings in
      single quotes (unescaped), every other value nothing. */
  function ValueSql(v: Value): Option<string> {
    match v
    case Num(n) => Some(" " + NumberText(n))
    case Str(s) => Some(" '" + s + "'")
    case Bool(b) => Some(" " + BoolText(b))
    case _ => None
  }

  /** The rendered values, in column order. */
  function Literals(es: seq<(string, Value)>): seq<string>
    decreases |es|
  {
    if |es| == 0 then []
    else Literals(es[..|es| - 1]) + match ValueSql(es[|es| - 1].1)
      case Some(t) => [t]
      case None => []
  }

  /** The `INSERT` statement the `push_str`/`pop` loop of `to_sql_values` builds. */
  function InsertSql(r: DBRecord, table: string): string {
    if |r| == 0 then ""
    else DropLast("INSERT INTO " + table + " VALUES (" + Terminated(Literals(r), ",")) + ");"
  }

  /** An empty record renders as nothing; otherwise the values are joined by commas inside
      `VALUES (..);`. When no value renders, the `pop` eats the opening parenthesis instead
      of a comma. */
  lemma InsertSqlText(r: DBRecord, table: string)
    ensures |r| == 0 ==> InsertSql(r, table) == ""
    ensures |r| > 0 && |Literals(r)| > 0 ==>
      InsertSql(r, table) == "INSERT INTO " + table + " VALUES (" + Join(Literals(r), ",") + ");"
    ensures |r| > 0 && |Literals(r)| == 0 ==>
      InsertSql(r, table) == "INSERT INTO " + table + " VALUES );"
  {
    var head := "INSERT INTO " + table + " VALUES (";
    if |r| > 0 {
      if |Literals(r)| > 0 {
        TerminatedJoin(Literals(r), ",");
        assert head + Terminated(Literals(r), ",") == (head + Join(Literals(r), ",")) + ",";
      } else {
        assert head + Terminated(Literals(r), ",") == "INSERT INTO " + table + " VALUES " + "(";
      }
    }
  }

  /** One ` "k" = v` condition of a `DELETE`. */
  function DeleteCondition(key: (string, U64)): string {
    " \"" + key.0 + "\" = " + NatText(key.1)
  }

  /** The conditions, one per key, in the order given. */
  function DeleteConditions(ks: seq<(string, U64)>): (cs: seq<string>)
    ensures |cs| == |ks| && forall i :: 0 <= i < |ks| ==> cs[i] == DeleteCondition(ks[i])
  {
    seq(|ks|, i requires 0 <= i < |ks| => DeleteCondition(ks[i]))
  }

  /** The `DELETE` statement of `to_sql_values`; `keys.unwrap()` panics on `None`. */
  function DeleteSql(table: string, keys: Option<seq<(string, U64)>>): (r: Result<string>)
    ensures r.Ok? <==> keys.Some?
  {
    match keys
    case None => Err(UnwrapNone)
    case Some(ks) => Ok("DELETE FROM " + table + " WHERE" + Join(DeleteConditions(ks), " AND ") + ";")
  }

  /** A two-key delete: each condition brings its own leading space, so the conditions
      are separated by `AND` with two spaces after it. */
  lemma DeleteSqlTwoKeys(table: string, a: string, x: U64, b: string, y: U64)
    ensures DeleteSql(table, Some([(a, x), (b, y)])) ==
      Ok("DELETE FROM " + table + " WHERE \"" + a + "\" = " + NatText(x) + " AND  \"" + b + "\" = " + NatText(y) + ";")
  {
    var d1 := DeleteCondition((a, x));
    var d2 := DeleteCondition((b, y));
    var conditions := DeleteConditions([(a, x), (b, y)]);
    assert conditions == [d1, d2];
    assert conditions[..1] == [d1];
    assert Join(conditions, " AND ") == d1 + " AND " + d2;
    var p := "DELETE FROM " + table + " WHERE";
    ConcatAssoc(p, d1 + " AND ", d2);
    ConcatAssoc(p, d1, " AND ");
    var p1 := p + " \"";
    ConcatAssoc("DELETE FROM " + table, " WHERE", " \"");
    assert " WHERE" + " \"" == " WHERE \"";
    AppendCondition(p, (a, x));
    var x1 := p + d1 + " AND ";
    ConcatAssoc(p + d1, " AND ", " \"");
    assert " AND " + " \"" == " AND  \"";
    AppendCondition(x1, (b, y));
  }

  /** Appending a condition is appending its pieces one after another. */
  lemma AppendCondition(s: string, key: (string, U64))
    ensures s + DeleteCondition(key) == s + " \"" + key.0 + "\" = " + NatText(key.1)
  {
    ConcatAssoc(s, " \"" + key.0 + "\" = ", NatText(key.1));
    ConcatAssoc(s, " \"" + key.0, "\" = ");
    ConcatAssoc(s, " \"", key.0);
  }

  /** One more column adds its rendered value and a comma, or nothing. */
  lemma LiteralsStep(r: seq<(string, Value)>, i: nat)
    requires i < |r|
    ensures Terminated(Literals(r[..i + 1]), ",") ==
      Terminated(Literals(r[..i]), ",") + (if ValueSql(r[i].1).Some? then ValueSql(r[i].1).value + "," else "")
  {
    assert r[..i + 1][..i] == r[..i] && r[..i + 1][i] == r[i];
    var prev := Literals(r[..i]);
    match ValueSql(r[i].1) {
      case Some(t) =>
        assert Literals(r[..i + 1]) == prev + [t];
        TerminatedSnoc(prev, t, ",");
        ConcatAssoc(Terminated(prev, ","), t, ",");
      case None =>
        assert Literals(r[..i + 1]) == prev + [];
        assert prev + [] == prev;
        assert Terminated(prev, ",") + "" == Terminated(prev, ",");
    }
  }

  /** `DBRecord::to_sql_values` */
  method ToSqlValues(r: DBRecord, recordType: RecordType, table: string, keys: Option<seq<(string, U64)>>)
    returns (sql: Result<string>)
    ensures recordType == InsertRecord ==> sql == Ok(InsertSql(r, table))
    ensures recordType == DeleteRecord ==> sql == DeleteSql(table, keys)
  {
    match recordType {
      case InsertRecord =>
        if |r| == 0 {
          return Ok("");
        }
        var text := "INSERT INTO " + table + " VALUES (";
        ghost var head := text;
        for i := 0 to |r|
          invariant text == head + Terminated(Literals(r[..i]), ",")
        {
          LiteralsStep(r, i);
          match ValueSql(r[i].1) {
            case Some(t) =>
              ConcatAssoc(head, Terminated(Literals(r[..i]), ","), t + ",");
              text := text + (t + ",");
            case None =>
          }
        }
        assert r[..|r|] == r;
        text := DropLast(text);
        text := text + ");";
        return Ok(text);
      case DeleteRecord =>
        return DeleteSql(table, keys);
    }
  }

  /** `DBRecord::get_sql_columns`: the column names in double quotes, in the record's
      iteration order, which is ascending key order because a `DBRecord` is a sorted
      `BTree`. */
  function GetSqlColumns(r: DBRecord): (columns: seq<string>)
    ensures |columns| == |r|
    ensures forall i :: 0 <= i < |r| ==> columns[i] == "\"" + r[i].0 + "\""
  {
    seq(|r|, i requires 0 <= i < |r| => "\"" + r[i].0 + "\"")
  }

  /** The SQL type a value's column gets in a `CREATE TABLE`. */
  function ColumnType(v: Value): Option<string> {
    match v
    case Num(_) => Some("INT")
    case Str(_) => Some("TEXT")
    case Bool(_) => Some("BOOLEAN")
    case _ => None
  }

  /** The typed column definitions, in column order. */
  function ColumnDefs(es: seq<(string, Value)>): seq<string>
    decreases |es|
  {
    if |es| == 0 then []
    else ColumnDefs(es[..|es| - 1]) + match ColumnType(es[|es| - 1].1)
      case Some(t) => ["\"" + es[|es| - 1].0 + "\" " + t]
      case None => []
  }

  /** The column list the `push_str`/`pop` loop of `create_sql_schema` builds. */
  function SchemaSql(r: DBRecord): string {
    DropLast(DropLast("(" + Terminated(ColumnDefs(r), ", "))) + " );"
  }

  /** The definitions are joined by `, ` inside `( .. );`; with none, both `pop`s eat the
      opening parenthesis and leave ` );`. */
  lemma SchemaSqlText(r: DBRecord)
    ensures |ColumnDefs(r)| > 0 ==> SchemaSql(r) == "(" + Join(ColumnDefs(r), ", ") + " );"
    ensures |ColumnDefs(r)| == 0 ==> SchemaSql(r) == " );"
  {
    var defs := ColumnDefs(r);
    if |defs| > 0 {
      TerminatedJoin(defs, ", ");
      var body := "(" + Join(defs, ", ");
      assert "(" + Terminated(defs, ", ") == body + ", ";
      assert DropLast(body + ", ") == body + ",";
      assert DropLast(body + ",") == body;
    }
  }

  /** One more column adds its typed definition and `, `, or nothing. */
  lemma ColumnDefsStep(r: seq<(string, Value)>, i: nat)
    requires i < |r|
    ensures Terminated(ColumnDefs(r[..i + 1]), ", ") ==
      Terminated(ColumnDefs(r[..i]), ", ") +
        (if ColumnType(r[i].1).Some? then "\"" + r[i].0 + "\" " + ColumnType(r[i].1).value + ", " else "")
  {
    assert r[..i + 1][..i] == r[..i] && r[..i + 1][i] == r[i];
    var prev := ColumnDefs(r[..i]);
    match ColumnType(r[i].1) {
      case Some(t) =>
        var def := "\"" + r[i].0 + "\" " + t;
        assert ColumnDefs(r[..i + 1]) == prev + [def];
        TerminatedSnoc(prev, def, ", ");
        ConcatAssoc(Terminated(prev, ", "), def, ", ");
      case None =>
        assert ColumnDefs(r[..i + 1]) == prev + [];
        assert prev + [] == prev;
        assert Terminated(prev, ", ") + "" == Terminated(prev, ", ");
    }
  }

  /** `DBRecord::create_sql_schema` */
  method CreateSqlSchema(r: DBRecord) returns (sql: string)
    ensures sql == SchemaSql(r)
  {
    sql := "(";
    for i := 0 to |r|
      invariant sql == "(" + Terminated(ColumnDefs(r[..i]), ", ")
    {
      ColumnDefsStep(r, i);
      match ColumnType(r[i].1) {
        case Some(t) =>
          var def := "\"" + r[i].0 + "\" " + t + ", ";
          ConcatAssoc("(", Terminated(ColumnDefs(r[..i]), ", "), def);
          sql := sql + def;
        case None =>
      }
    }
    assert r[..|r|] == r;
    sql := DropLast(sql);
    sql := DropLast(sql);
    sql := sql + " );";
  }
}
