/** The earlier normaliser (streamingSQL/src/core/dataflow_types.rs): keys are decimal strings
    parsed to `usize`, there is no foreign key, an update retracts and asserts at the same
    time, and equality looks at the record while ordering and hashing look at the key. */
module LegacyDataflowTypes {
  import opened Wrappers
  import opened Text
  import opened JsonValue
  import opened OrderedMap
  import opened WalDecode
  import DataflowTypes

  /** `DataflowData(key, record)` */
  datatype LegacyData = LegacyData(key: U64, record: BTree<Value>)

  datatype LegacyInput = LegacyInput(element: LegacyData, time: U64, change: int)

  /** The message of `unwrap()` on a failed `parse()`. */
  const ParseFailure := "called `Result::unwrap()` on an `Err` value"

  predicate AllDigits(s: string) {
    forall i :: 0 <= i < |s| ==> IsDigit(s[i])
  }

  /** `str::parse::<usize>()` on a 64-bit target: an optional `+`, then at least one decimal
      digit, and a value below 2^64. */
  function ParseUsize(s: string): (r: Option<U64>)
    ensures r.Some? ==> |s| > 0
  {
    var digits := if |s| > 0 && s[0] == '+' then s[1..] else s;
    if |digits| == 0 || !AllDigits(digits) then None
    else if DigitsValue(digits) < U64Limit then Some(DigitsValue(digits))
    else None
  }

  /** Parsing reads back what `Display` writes, with or without a leading `+`. */
  lemma ParseUsizeRoundTrip(n: U64)
    ensures ParseUsize(NatText(n)) == Some(n)
    ensures ParseUsize("+" + NatText(n)) == Some(n)
  {
    NatTextRoundTrip(n);
    assert ("+" + NatText(n))[1..] == NatText(n);
  }

  /** The empty string, a lone sign, a minus sign and 2^64 are all rejected. */
  lemma ParseUsizeRejects()
    ensures ParseUsize("") == None
    ensures ParseUsize("+") == None
    ensures forall s: string :: ParseUsize("-" + s) == None
    ensures ParseUsize(NatText(U64Limit)) == None
  {
    forall s: string ensures ParseUsize("-" + s) == None {
      assert ("-" + s)[0] == '-' && !IsDigit('-');
    }
    NatTextRoundTrip(U64Limit);
  }

  /** `pkey.val.as_str().unwrap().parse().unwrap()` */
  function LegacyKey(e: WalEvent): Result<U64> {
    var text :- Unwrap(AsStr(e.pkey.val));
    match ParseUsize(text)
    case Some(k) => Ok(k)
    case None => Err(ParseFailure)
  }

  /** The deltas one event contributes; the key is parsed before the time is converted. */
  function LegacyEventDeltas(e: WalEvent): Result<seq<LegacyInput>> {
    var key :- LegacyKey(e);
    var t :- DataflowTypes.TimeOf(e.xid);
    match e.data
    case Insert(m) => Ok([LegacyInput(LegacyData(key, m), t, 1)])
    case Update(m) => Ok([LegacyInput(LegacyData(key, []), t, -1), LegacyInput(LegacyData(key, m), t, 1)])
    case Delete => Ok([LegacyInput(LegacyData(key, []), t, -1)])
  }

  /** An update retracts an empty record and asserts the new one, both at time `xid`. */
  lemma LegacyUpdateSameTime(e: WalEvent)
    requires e.data.Update?
    ensures LegacyEventDeltas(e).Ok? <==> LegacyKey(e).Ok? && e.xid >= 0
    ensures LegacyEventDeltas(e).Ok? ==> LegacyEventDeltas(e).value == [
      LegacyInput(LegacyData(LegacyKey(e).value, []), e.xid, -1),
      LegacyInput(LegacyData(LegacyKey(e).value, e.data.data), e.xid, 1)]
  {
  }

  /** Inserts and deletes yield one delta at `xid`; a string key `s` must parse as a `usize`. */
  lemma LegacySingleDelta(e: WalEvent)
    requires !e.data.Update?
    ensures LegacyEventDeltas(e).Ok? <==>
      e.pkey.val.Str? && ParseUsize(e.pkey.val.s).Some? && e.xid >= 0
    ensures LegacyEventDeltas(e).Ok? ==> LegacyEventDeltas(e).value == [
      LegacyInput(LegacyData(ParseUsize(e.pkey.val.s).value, DataflowTypes.DataOf(e.data)), e.xid,
                  if e.data.Insert? then 1 else -1)]
  {
  }

  /** What the old `from_wal_event` computes. */
  function LegacyNormalize(events: seq<WalEvent>): Result<seq<LegacyInput>>
    decreases |events|
  {
    if |events| == 0 then Ok([])
    else
      var prev :- LegacyNormalize(events[..|events| - 1]);
      var last :- LegacyEventDeltas(events[|events| - 1]);
      Ok(prev + last)
  }

  /** The old normaliser yields as many deltas as the current one. */
  lemma {:induction false} LegacyNormalizeLength(events: seq<WalEvent>)
    requires LegacyNormalize(events).Ok?
    ensures |LegacyNormalize(events).value| == DataflowTypes.DeltaCount(events)
    decreases |events|
  {
    if |events| > 0 {
      LegacyNormalizeLength(events[..|events| - 1]);
    }
  }

  /** The old `DataflowInput::from_wal_event` loop. */
  method LegacyFromWalEvent(events: seq<WalEvent>) returns (r: Result<seq<LegacyInput>>)
    ensures r == LegacyNormalize(events)
  {
    var input: seq<LegacyInput> := [];
    for i := 0 to |events|
      invariant LegacyNormalize(events[..i]) == Ok(input)
    {
      var e := events[i];
      assert events[..i + 1][..i] == events[..i] && events[..i + 1][i] == e;
      var deltas := LegacyEventDeltas(e);
      if deltas.Err? {
        LegacyStopsAt(events, i);
        return Err(deltas.reason);
      }
      input := input + deltas.value;
    }
    assert events[..|events|] == events;
    r := Ok(input);
  }

  /** A failing event ends the old normaliser with its own failure. */
  lemma {:induction false} LegacyStopsAt(events: seq<WalEvent>, i: nat)
    requires i < |events| && LegacyNormalize(events[..i]).Ok? && LegacyEventDeltas(events[i]).Err?
    ensures LegacyNormalize(events) == LegacyEventDeltas(events[i])
    decreases |events|
  {
    if i + 1 == |events| {
      assert events[..|events| - 1] == events[..i];
    } else {
      var init := events[..|events| - 1];
      assert init[..i] == events[..i] && init[i] == events[i];
      LegacyStopsAt(init, i);
    }
  }

  // ---------------------------------------------------------------------------------------
  // Equality, ordering and hashing of the old `DataflowData`

  /** `PartialEq`: compares the records only. */
  predicate LegacyEq(a: LegacyData, b: LegacyData) {
    a.record == b.record
  }

  /** `Ord`: compares the keys only. */
  function LegacyCmp(a: LegacyData, b: LegacyData): DataflowTypes.Ordering {
    DataflowTypes.CompareInts(a.key, b.key)
  }

  /** `Hash`: feeds the key only. */
  function LegacyHashInput(a: LegacyData): U64 {
    a.key
  }

  /** Equal elements can hash differently and unequal elements can compare `Equal`: any two
      retractions of different rows (both carry the empty record) are `==` yet hash apart,
      and two versions of one row compare `Equal` yet are `!=`. */
  lemma LegacyOrderInconsistent()
    ensures exists a, b :: LegacyEq(a, b) && LegacyHashInput(a) != LegacyHashInput(b)
    ensures exists a, b :: LegacyCmp(a, b) == DataflowTypes.Equal && !LegacyEq(a, b)
  {
    var retractOne := LegacyData(1, []);
    var retractTwo := LegacyData(2, []);
    assert LegacyEq(retractOne, retractTwo) && LegacyHashInput(retractOne) != LegacyHashInput(retractTwo);
    var inserted := LegacyData(1, [("id", Num(Int(1)))]);
    assert LegacyCmp(retractOne, inserted) == DataflowTypes.Equal && !LegacyEq(retractOne, inserted);
  }

  /** The retractions two deletes of different rows produce are `==` under the old equality
      although their keys, and so their hashes, differ. */
  lemma LegacyRetractionsCollide(d1: WalEvent, d2: WalEvent)
    requires d1.data.Delete? && d2.data.Delete?
    requires LegacyEventDeltas(d1).Ok? && LegacyEventDeltas(d2).Ok?
    requires LegacyKey(d1) != LegacyKey(d2)
    ensures var a := LegacyEventDeltas(d1).value[0].element;
      var b := LegacyEventDeltas(d2).value[0].element;
      LegacyEq(a, b) && LegacyHashInput(a) != LegacyHashInput(b)
  {
  }
}
