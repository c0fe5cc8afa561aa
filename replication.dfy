/** Logical-replication bookkeeping (streamingSQL/src/pg_client/replication.rs): the Standby
    Status Update message of the PostgreSQL streaming replication protocol, and the
    `Replicator` that buffers the changes of a wal2json transaction and publishes them on
    commit. The wall clock (`unixMicros`), the `PgLsn` text parser, the serde_json byte
    parser, and whether the broadcast `send` succeeds are parameters. Sending a Standby
    Status Update is recorded in `acks`, publishing a batch in `published`. */
module Replication {
  import opened Wrappers
  import opened JsonValue
  import opened WalDecode

  type Byte = b: int | 0 <= b < 256

  const SecondsFromUnixEpochTo2000 := 946684800
  const MicrosFromUnixEpochTo2000 := SecondsFromUnixEpochTo2000 * 1000 * 1000
  /** `'r'`: the Standby Status Update tag. */
  const StatusUpdateTag: Byte := 114
  /** `'w'`: the XLogData tag. */
  const XLogDataTag: Byte := 119
  /** `'k'`: the primary keepalive tag. */
  const KeepaliveTag: Byte := 107
  /** XLogData: the tag byte and three 8-byte header fields precede the payload. */
  const XLogDataHeader := 25

  type LsnParser = string -> Option<U64>
  type JsonParser = seq<Byte> -> Option<Value>

  // ---------------------------------------------------------------------------------------
  // Big-endian integers

  function Pow256(n: nat): (p: nat)
    ensures p > 0
  {
    if n == 0 then 1 else 256 * Pow256(n - 1)
  }

  lemma Pow256Eight()
    ensures Pow256(8) == U64Limit
  {
    assert Pow256(1) == 0x100;
    assert Pow256(2) == 0x1_0000;
    assert Pow256(4) == 0x1_0000_0000 by {
      assert Pow256(3) == 0x100_0000;
    }
    assert Pow256(6) == 0x1_0000_0000_0000 by {
      assert Pow256(5) == 0x100_0000_0000;
    }
    assert Pow256(7) == 0x100_0000_0000_0000;
  }

  /** `to_be_bytes`: `width` bytes, most significant first. */
  function BigEndian(x: nat, width: nat): (bs: seq<Byte>)
    requires x < Pow256(width)
    ensures |bs| == width
    decreases width
  {
    if width == 0 then [] else BigEndian(x / 256, width - 1) + [x % 256]
  }

  /** `from_be_bytes` */
  function FromBigEndian(bs: seq<Byte>): nat
    decreases |bs|
  {
    if |bs| == 0 then 0 else FromBigEndian(bs[..|bs| - 1]) * 256 + bs[|bs| - 1]
  }

  /** Reading the bytes back gives the number. */
  lemma {:induction false} BigEndianRoundTrip(x: nat, width: nat)
    requires x < Pow256(width)
    ensures FromBigEndian(BigEndian(x, width)) == x
    decreases width
  {
    if width > 0 {
      BigEndianRoundTrip(x / 256, width - 1);
      var bs := BigEndian(x, width);
      assert bs[..|bs| - 1] == BigEndian(x / 256, width - 1);
    }
  }

  /** `u64::to_be_bytes` */
  function U64Bytes(x: U64): (bs: seq<Byte>)
    ensures |bs| == 8 && FromBigEndian(bs) == x
  {
    Pow256Eight();
    BigEndianRoundTrip(x, 8);
    BigEndian(x, 8)
  }

  // ---------------------------------------------------------------------------------------
  // Standby Status Update

  /** Microseconds since 2000-01-01: `duration_since(UNIX_EPOCH)` panics before 1970 and
      the `u64` conversion panics before 2000 or past the `u64` range. */
  function ClockSince2000(unixMicros: int): (r: Result<U64>)
    ensures r.Ok? <==> MicrosFromUnixEpochTo2000 <= unixMicros < MicrosFromUnixEpochTo2000 + U64Limit
    ensures r.Ok? ==> r.value + MicrosFromUnixEpochTo2000 == unixMicros
  {
    if unixMicros < 0 then Result<U64>.Err("called `Result::unwrap()` on an `Err` value: SystemTimeError")
    else if MicrosFromUnixEpochTo2000 <= unixMicros < MicrosFromUnixEpochTo2000 + U64Limit then
      Ok(unixMicros - MicrosFromUnixEpochTo2000)
    else Result<U64>.Err("called `Result::unwrap()` on an `Err` value: TryFromIntError")
  }

  /** The message: tag, written, flushed and applied positions, clock, reply request. */
  function SsuMessage(writeLsn: U64, clock: U64): seq<Byte> {
    [StatusUpdateTag] + U64Bytes(writeLsn) + U64Bytes(writeLsn) + U64Bytes(writeLsn) + U64Bytes(clock) + [1]
  }

  /** What `prepare_ssu` returns at the clock reading `unixMicros`. */
  function Ssu(writeLsn: U64, unixMicros: int): Result<seq<Byte>> {
    var clock :- ClockSince2000(unixMicros);
    Ok(SsuMessage(writeLsn, clock))
  }

  /** The message is 34 bytes: `'r'`, the three positions as the same big-endian `write_lsn`,
      the big-endian clock, and a final 1 that asks for an immediate reply. Each field
      decodes back to the value that was encoded. */
  lemma SsuLayout(writeLsn: U64, clock: U64)
    ensures var m := SsuMessage(writeLsn, clock);
      && |m| == 34 && m[0] == 114 && m[33] == 1
      && m[1..9] == U64Bytes(writeLsn) && m[9..17] == U64Bytes(writeLsn) && m[17..25] == U64Bytes(writeLsn)
      && m[25..33] == U64Bytes(clock)
      && FromBigEndian(m[1..9]) == writeLsn && FromBigEndian(m[9..17]) == writeLsn
      && FromBigEndian(m[17..25]) == writeLsn && FromBigEndian(m[25..33]) == clock
  {
    var b := U64Bytes(writeLsn);
    var c := U64Bytes(clock);
    var p0: seq<Byte> := [StatusUpdateTag];
    var p1 := p0 + b;
    var p2 := p1 + b;
    var p3 := p2 + b;
    var p4 := p3 + c;
    var tail: seq<Byte> := [1];
    assert SsuMessage(writeLsn, clock) == p4 + tail;
    SliceRight(p3, c);
    SliceLeft(p4, tail, 25, 33);
    SliceRight(p2, b);
    SliceLeft(p3, c, 17, 25);
    SliceLeft(p4, tail, 17, 25);
    SliceRight(p1, b);
    SliceLeft(p2, b, 9, 17);
    SliceLeft(p3, c, 9, 17);
    SliceLeft(p4, tail, 9, 17);
    SliceRight(p0, b);
    SliceLeft(p1, b, 1, 9);
    SliceLeft(p2, b, 1, 9);
    SliceLeft(p3, c, 1, 9);
    SliceLeft(p4, tail, 1, 9);
  }

  lemma SliceLeft<T>(s: seq<T>, t: seq<T>, i: nat, j: nat)
    requires i <= j <= |s|
    ensures (s + t)[i..j] == s[i..j]
  {
  }

  lemma SliceRight<T>(s: seq<T>, t: seq<T>)
    ensures (s + t)[|s|..|s| + |t|] == t
  {
  }

  /** `prepare_ssu`: appends the fields one after another. */
  method PrepareSsu(writeLsn: U64, unixMicros: int) returns (r: Result<seq<Byte>>)
    ensures r == Ssu(writeLsn, unixMicros)
  {
    var writeLsnBytes := U64Bytes(writeLsn);
    var timeSince2000 :- ClockSince2000(unixMicros);
    var dataToSend: seq<Byte> := [];
    dataToSend := dataToSend + [StatusUpdateTag];
    dataToSend := dataToSend + writeLsnBytes;
    dataToSend := dataToSend + writeLsnBytes;
    dataToSend := dataToSend + writeLsnBytes;
    dataToSend := dataToSend + U64Bytes(timeSince2000);
    dataToSend := dataToSend + [1];
    assert [] + [StatusUpdateTag] == [StatusUpdateTag];
    return Ok(dataToSend);
  }

  // ---------------------------------------------------------------------------------------
  // The transaction state machine

  /** `commit_lsn`, the buffered `records`, and what has left the replicator. */
  datatype ReplState = ReplState(commitLsn: U64, records: seq<Value>, published: seq<seq<WalEvent>>, acks: seq<seq<Byte>>)

  /** `record["action"].as_str().unwrap()` */
  function ActionOf(record: Value): Result<string> {
    Unwrap(AsStr(Field(record, "action")))
  }

  predicate IsChange(action: string) {
    action == "I" || action == "U" || action == "D"
  }

  /** `records.iter().map(WalEvent::from_wal_json).collect()`: every record decoded, in
      order; the first record that does not decode panics. */
  function DecodeRecords(records: seq<Value>): (r: Result<seq<WalEvent>>)
    ensures r.Ok? <==> forall i :: 0 <= i < |records| ==> WalEventFromJson(records[i]).Ok?
    ensures r.Ok? ==> (|r.value| == |records| &&
      forall i :: 0 <= i < |records| ==> WalEventFromJson(records[i]) == Ok(r.value[i]))
  {
    MapAll(records, WalEventFromJson)
  }

  /** `replicate`: a non-empty buffer is decoded and sent as one batch; `send().unwrap()`
      panics when the channel has no receiver. */
  function ReplicateStep(s: ReplState, sendOk: bool): Result<ReplState> {
    if |s.records| >= 1 then
      var events :- DecodeRecords(s.records);
      if sendOk then Ok(s.(published := s.published + [events]))
      else Err("called `Result::unwrap()` on an `Err` value: SendError")
    else Ok(s)
  }

  /** `commit`: acknowledges `commit_lsn` and clears the buffer. */
  function CommitStep(s: ReplState, unixMicros: int): Result<ReplState> {
    var buf :- Ssu(s.commitLsn, unixMicros);
    Ok(s.(acks := s.acks + [buf], records := []))
  }

  /** `process_record` */
  function RecordStep(s: ReplState, record: Value, parseLsn: LsnParser, unixMicros: int, sendOk: bool): Result<ReplState> {
    var action :- ActionOf(record);
    if action == "B" then
      var lsnText :- Unwrap(AsStr(Field(record, "nextlsn")));
      var lsn :- Unwrap(parseLsn(lsnText));
      Ok(s.(commitLsn := lsn))
    else if action == "C" then
      var replicated :- ReplicateStep(s, sendOk);
      CommitStep(replicated, unixMicros)
    else if IsChange(action) then
      Ok(s.(records := s.records + [record]))
    else
      Ok(s)
  }

  /** What each action changes: `B` only the commit position, `I`/`U`/`D` only the buffer
      (one record at its end), `C` publishes the decoded buffer if it is non-empty, sends one
      acknowledgement of the commit position and empties the buffer, and any other action
      changes nothing. A missing action panics. */
  lemma RecordStepEffects(s: ReplState, record: Value, parseLsn: LsnParser, unixMicros: int, sendOk: bool)
    ensures ActionOf(record).Err? ==> RecordStep(s, record, parseLsn, unixMicros, sendOk).Err?
    ensures var r := RecordStep(s, record, parseLsn, unixMicros, sendOk);
      ActionOf(record) == Ok("B") ==>
        (r.Ok? <==> AsStr(Field(record, "nextlsn")).Some? && parseLsn(AsStr(Field(record, "nextlsn")).value).Some?)
    ensures var r := RecordStep(s, record, parseLsn, unixMicros, sendOk);
      ActionOf(record) == Ok("B") && r.Ok? ==>
        r.value.records == s.records && r.value.published == s.published && r.value.acks == s.acks &&
        Some(r.value.commitLsn) == parseLsn(AsStr(Field(record, "nextlsn")).value)
    ensures ActionOf(record).Ok? && IsChange(ActionOf(record).value) ==>
      RecordStep(s, record, parseLsn, unixMicros, sendOk) == Ok(s.(records := s.records + [record]))
    ensures ActionOf(record).Ok? && !IsChange(ActionOf(record).value) && ActionOf(record).value !in {"B", "C"} ==>
      RecordStep(s, record, parseLsn, unixMicros, sendOk) == Ok(s)
    ensures var r := RecordStep(s, record, parseLsn, unixMicros, sendOk);
      ActionOf(record) == Ok("C") ==>
        (r.Ok? <==> DecodeRecords(s.records).Ok? && (sendOk || |s.records| == 0) && ClockSince2000(unixMicros).Ok?)
    ensures var r := RecordStep(s, record, parseLsn, unixMicros, sendOk);
      ActionOf(record) == Ok("C") && r.Ok? ==>
        r.value == ReplState(s.commitLsn, [],
          s.published + (if |s.records| == 0 then [] else [DecodeRecords(s.records).value]),
          s.acks + [SsuMessage(s.commitLsn, ClockSince2000(unixMicros).value)])
  {
  }

  /** `process_txn` on one CopyData payload. */
  function TxnStep(s: ReplState, event: seq<Byte>, parseJson: JsonParser, parseLsn: LsnParser,
                   unixMicros: int, sendOk: bool): Result<ReplState> {
    var tag :- At(event, 0);
    if tag == XLogDataTag then
      if |event| < XLogDataHeader then Err("range start index out of range for slice")
      else
        var json :- Unwrap(parseJson(event[XLogDataHeader..]));
        RecordStep(s, json, parseLsn, unixMicros, sendOk)
    else if tag == KeepaliveTag then
      if event[|event| - 1] == 1 then
        var buf :- Ssu(s.commitLsn, unixMicros);
        Ok(s.(acks := s.acks + [buf]))
      else Ok(s)
    else Ok(s)
  }

  /** An empty payload panics; `'w'` hands the JSON after the 25-byte header to
      `process_record`; `'k'` acknowledges the commit position exactly when its last byte is
      1; every other tag is ignored. */
  lemma TxnStepDispatch(s: ReplState, event: seq<Byte>, parseJson: JsonParser, parseLsn: LsnParser,
                        unixMicros: int, sendOk: bool)
    ensures |event| == 0 ==> TxnStep(s, event, parseJson, parseLsn, unixMicros, sendOk).Err?
    ensures |event| >= XLogDataHeader && event[0] == XLogDataTag && parseJson(event[XLogDataHeader..]).Some? ==>
      TxnStep(s, event, parseJson, parseLsn, unixMicros, sendOk) ==
        RecordStep(s, parseJson(event[XLogDataHeader..]).value, parseLsn, unixMicros, sendOk)
    ensures |event| > 0 && event[0] == KeepaliveTag && event[|event| - 1] == 1 && ClockSince2000(unixMicros).Ok? ==>
      TxnStep(s, event, parseJson, parseLsn, unixMicros, sendOk) ==
        Ok(s.(acks := s.acks + [SsuMessage(s.commitLsn, ClockSince2000(unixMicros).value)]))
    ensures (|event| > 0 && event[0] == XLogDataTag &&
             (|event| < XLogDataHeader || parseJson(event[XLogDataHeader..]).None?)) ==>
      TxnStep(s, event, parseJson, parseLsn, unixMicros, sendOk).Err?
    ensures |event| > 0 && event[0] == KeepaliveTag && event[|event| - 1] == 1 ==>
      (TxnStep(s, event, parseJson, parseLsn, unixMicros, sendOk).Err? <==> ClockSince2000(unixMicros).Err?)
    ensures |event| > 0 && event[0] == KeepaliveTag && event[|event| - 1] != 1 ==>
      TxnStep(s, event, parseJson, parseLsn, unixMicros, sendOk) == Ok(s)
    ensures |event| > 0 && event[0] != XLogDataTag && event[0] != KeepaliveTag ==>
      TxnStep(s, event, parseJson, parseLsn, unixMicros, sendOk) == Ok(s)
  {
  }

  /** A run of records processed one after another with the same clock and channel. */
  function Run(s: ReplState, records: seq<Value>, parseLsn: LsnParser, unixMicros: int, sendOk: bool): Result<ReplState> {
    Fold(s, records, (st: ReplState, record: Value) => RecordStep(st, record, parseLsn, unixMicros, sendOk))
  }

  /** Processing `a + b` is processing `a`, then `b` from where `a` left off. */
  lemma RunAppend(s: ReplState, a: seq<Value>, b: seq<Value>, parseLsn: LsnParser, unixMicros: int, sendOk: bool)
    ensures Run(s, a + b, parseLsn, unixMicros, sendOk) ==
      if Run(s, a, parseLsn, unixMicros, sendOk).Err? then Run(s, a, parseLsn, unixMicros, sendOk)
      else Run(Run(s, a, parseLsn, unixMicros, sendOk).value, b, parseLsn, unixMicros, sendOk)
  {
    FoldAppend(s, a, b, (st: ReplState, record: Value) => RecordStep(st, record, parseLsn, unixMicros, sendOk));
  }

  /** One more record is one more `process_record` after the run so far. */
  lemma RunSnoc(s: ReplState, records: seq<Value>, record: Value, parseLsn: LsnParser, unixMicros: int, sendOk: bool)
    ensures var prev := Run(s, records, parseLsn, unixMicros, sendOk);
      Run(s, records + [record], parseLsn, unixMicros, sendOk) ==
        if prev.Err? then prev else RecordStep(prev.value, record, parseLsn, unixMicros, sendOk)
  {
    assert (records + [record])[..|records|] == records;
  }

  /** Change records are buffered in arrival order and nothing else happens. */
  lemma {:induction false} RunChanges(s: ReplState, changes: seq<Value>, parseLsn: LsnParser, unixMicros: int, sendOk: bool)
    requires forall i :: 0 <= i < |changes| ==> ActionOf(changes[i]).Ok? && IsChange(ActionOf(changes[i]).value)
    ensures Run(s, changes, parseLsn, unixMicros, sendOk) == Ok(s.(records := s.records + changes))
    decreases |changes|
  {
    if |changes| > 0 {
      var init := changes[..|changes| - 1];
      assert forall i :: 0 <= i < |init| ==> init[i] == changes[i];
      RunChanges(s, init, parseLsn, unixMicros, sendOk);
      RunSnoc(s, init, changes[|changes| - 1], parseLsn, unixMicros, sendOk);
      assert init + [changes[|changes| - 1]] == changes;
      assert (s.records + init) + [changes[|changes| - 1]] == s.records + changes;
    } else {
      assert s.records + changes == s.records;
    }
  }

  /** A whole transaction `B`, changes, `C` on an empty buffer: the changes are published as
      one batch (none when there are no changes), the transaction's `nextlsn` is
      acknowledged, and the buffer is empty again. */
  lemma TransactionPublishes(s: ReplState, begin: Value, changes: seq<Value>, commit: Value,
                             parseLsn: LsnParser, unixMicros: int, sendOk: bool)
    requires s.records == []
    requires ActionOf(begin) == Ok("B") && Field(begin, "nextlsn").Str? && parseLsn(Field(begin, "nextlsn").s).Some?
    requires forall i :: 0 <= i < |changes| ==> ActionOf(changes[i]).Ok? && IsChange(ActionOf(changes[i]).value)
    requires ActionOf(commit) == Ok("C")
    requires DecodeRecords(changes).Ok? && sendOk && ClockSince2000(unixMicros).Ok?
    ensures var lsn := parseLsn(Field(begin, "nextlsn").s).value;
      Run(s, [begin] + changes + [commit], parseLsn, unixMicros, sendOk) ==
        Ok(ReplState(lsn, [],
          s.published + (if |changes| == 0 then [] else [DecodeRecords(changes).value]),
          s.acks + [SsuMessage(lsn, ClockSince2000(unixMicros).value)]))
  {
    var lsn := parseLsn(Field(begin, "nextlsn").s).value;
    var afterBegin := s.(commitLsn := lsn);
    RunSnoc(s, [], begin, parseLsn, unixMicros, sendOk);
    assert [] + [begin] == [begin];
    RunAppend(s, [begin], changes, parseLsn, unixMicros, sendOk);
    RunChanges(afterBegin, changes, parseLsn, unixMicros, sendOk);
    var buffered := afterBegin.(records := changes);
    assert afterBegin.records + changes == changes;
    RunAppend(s, [begin] + changes, [commit], parseLsn, unixMicros, sendOk);
    RunSnoc(buffered, [], commit, parseLsn, unixMicros, sendOk);
    assert [] + [commit] == [commit];
    RecordStepEffects(buffered, commit, parseLsn, unixMicros, sendOk);
  }

  class Replicator {
    var commitLsn: U64
    var records: seq<Value>
    /** The batches sent on the broadcast channel, oldest first. */
    var published: seq<seq<WalEvent>>
    /** The Standby Status Updates sent on the replication stream, oldest first. */
    var acks: seq<seq<Byte>>

    /** `Replicator::new`, from the slot's confirmed position. */
    constructor (slotLsn: U64)
      ensures commitLsn == slotLsn && records == [] && published == [] && acks == []
    {
      commitLsn := slotLsn;
      records := [];
      published := [];
      acks := [];
    }

    function State(): ReplState
      reads this
    {
      ReplState(commitLsn, records, published, acks)
    }

    /** `replicate` */
    method Replicate(sendOk: bool) returns (panicked: bool)
      modifies this
      ensures var r := ReplicateStep(old(State()), sendOk);
        panicked == r.Err? && (r.Ok? ==> State() == r.value)
    {
      if |records| >= 1 {
        var walEvents := DecodeRecords(records);
        if walEvents.Err? || !sendOk {
          return true;
        }
        published := published + [walEvents.value];
      }
      return false;
    }

    /** `commit` */
    method Commit(unixMicros: int) returns (panicked: bool)
      modifies this
      ensures var r := CommitStep(old(State()), unixMicros);
        panicked == r.Err? && (r.Ok? ==> State() == r.value)
    {
      var buf := PrepareSsu(commitLsn, unixMicros);
      if buf.Err? {
        return true;
      }
      acks := acks + [buf.value];
      records := [];
      return false;
    }

    /** `process_record` */
    method ProcessRecord(record: Value, parseLsn: LsnParser, unixMicros: int, sendOk: bool) returns (panicked: bool)
      modifies this
      ensures var r := RecordStep(old(State()), record, parseLsn, unixMicros, sendOk);
        panicked == r.Err? && (r.Ok? ==> State() == r.value)
    {
      var action := AsStr(Field(record, "action"));
      if action.None? {
        return true;
      }
      match action.value {
        case "B" =>
          var lsnText := AsStr(Field(record, "nextlsn"));
          if lsnText.None? || parseLsn(lsnText.value).None? {
            return true;
          }
          commitLsn := parseLsn(lsnText.value).value;
          return false;
        case "C" =>
          panicked := Replicate(sendOk);
          if panicked {
            return;
          }
          panicked := Commit(unixMicros);
        case "I" =>
          records := records + [record];
          return false;
        case "U" =>
          records := records + [record];
          return false;
        case "D" =>
          records := records + [record];
          return false;
        case _ =>
          return false;
      }
    }

    /** `process_txn` */
    method ProcessTxn(event: seq<Byte>, parseJson: JsonParser, parseLsn: LsnParser, unixMicros: int, sendOk: bool)
      returns (panicked: bool)
      modifies this
      ensures var r := TxnStep(old(State()), event, parseJson, parseLsn, unixMicros, sendOk);
        panicked == r.Err? && (r.Ok? ==> State() == r.value)
    {
      if |event| == 0 {
        return true;
      }
      if event[0] == XLogDataTag {
        if |event| < XLogDataHeader {
          return true;
        }
        var json := parseJson(event[XLogDataHeader..]);
        if json.None? {
          return true;
        }
        panicked := ProcessRecord(json.value, parseLsn, unixMicros, sendOk);
      } else if event[0] == KeepaliveTag {
        var lastByte := event[|event| - 1];
        var timeoutImminent := lastByte == 1;
        if timeoutImminent {
          var buf := PrepareSsu(commitLsn, unixMicros);
          if buf.Err? {
            return true;
          }
          acks := acks + [buf.value];
        }
        return false;
      } else {
        return false;
      }
    }
  }
}
