/** The `pg_timezone_names` table function of the ICU extension: each call
    continues the time-zone enumeration where the previous call stopped and
    emits at most one vector of rows (name, abbreviation, UTC offset,
    daylight-saving flag).

    ICU's answers are inputs: the enumeration is the sequence of steps it
    yields, and `facts` gives, per long id, the equivalent ids and the
    offsets (`None` when ICU fails to compute them). */
module IcuTimeZone {
  import opened Results

  /** The number of rows one call of a table function may emit. */
  const StandardVectorSize: nat := 1024

  /** One answer of the enumeration: the next long id, or a failure. The
      end of the enumeration is the end of the sequence of steps. */
  datatype ZoneStep = Zone(longId: string) | EnumerationFailure

  datatype Offsets = Offsets(rawOffsetMs: int, dstOffsetMs: int)

  datatype ZoneFacts = ZoneFacts(equivalentIds: seq<string>, offsets: Option<Offsets>)

  datatype Row = Row(name: string, abbrev: string, utcOffsetMs: int, isDst: bool)

  /** The rows one call emits and how many enumeration steps it consumes. */
  datatype Fill = Fill(rows: seq<Row>, consumed: nat)

  /** The abbreviation of a zone: its first equivalent id without `/`, or
      its long id when there is none. */
  function ShortIdOf(longId: string, equivalentIds: seq<string>): string
  {
    if equivalentIds == [] then longId
    else if '/' !in equivalentIds[0] then equivalentIds[0]
    else ShortIdOf(longId, equivalentIds[1..])
  }

  lemma {:induction false} ShortIdOfIsFirstWithoutSlash(longId: string, ids: seq<string>)
    ensures (forall k :: 0 <= k < |ids| ==> '/' in ids[k]) ==> ShortIdOf(longId, ids) == longId
    ensures (exists k :: 0 <= k < |ids| && '/' !in ids[k]) ==>
      exists k :: 0 <= k < |ids| && '/' !in ids[k] && ShortIdOf(longId, ids) == ids[k] &&
        forall j :: 0 <= j < k ==> '/' in ids[j]
  {
    if ids != [] && '/' in ids[0] {
      ShortIdOfIsFirstWithoutSlash(longId, ids[1..]);
      if exists k :: 0 <= k < |ids| && '/' !in ids[k] {
        var k :| 0 <= k < |ids| && '/' !in ids[k];
        assert '/' !in ids[1..][k - 1];
        var k' :| 0 <= k' < |ids| - 1 && '/' !in ids[1..][k'] && ShortIdOf(longId, ids[1..]) == ids[1..][k'] &&
          forall j :: 0 <= j < k' ==> '/' in ids[1..][j];
        assert forall j :: 0 <= j < k' + 1 ==> '/' in ids[j] by {
          forall j | 0 <= j < k' + 1 ensures '/' in ids[j] {
            if j > 0 { assert ids[j] == ids[1..][j - 1]; }
          }
        }
      }
    }
  }

  /** The abbreviation is the long id itself or contains no `/`. */
  lemma {:induction false} ShortIdOfShape(longId: string, ids: seq<string>)
    ensures ShortIdOf(longId, ids) == longId || '/' !in ShortIdOf(longId, ids)
  {
    if ids != [] && '/' in ids[0] {
      ShortIdOfShape(longId, ids[1..]);
    }
  }

  /** The search loop over the equivalent ids of one zone. */
  method ShortId(longId: string, equivalentIds: seq<string>) returns (shortId: string)
    ensures shortId == ShortIdOf(longId, equivalentIds)
  {
    shortId := longId;
    var idx := 0;
    while idx < |equivalentIds|
      invariant 0 <= idx <= |equivalentIds|
      invariant shortId == longId
      invariant ShortIdOf(longId, equivalentIds) == ShortIdOf(longId, equivalentIds[idx..])
    {
      var eid := equivalentIds[idx];
      if '/' !in eid {
        shortId := eid;
        break;
      }
      assert equivalentIds[idx..][1..] == equivalentIds[idx + 1..];
      idx := idx + 1;
    }
  }

  /** The row of a zone: its name, the abbreviation the equivalent ids
      give, its raw offset and whether its DST offset is nonzero; none when
      ICU cannot compute the offsets. */
  function RowOf(id: string, zone: ZoneFacts): Option<Row>
  {
    if zone.offsets.None? then None
    else Some(Row(id, ShortIdOf(id, zone.equivalentIds), zone.offsets.value.rawOffsetMs,
                  zone.offsets.value.dstOffsetMs != 0))
  }

  /** The rows emitted from the remaining steps with room for `room` rows:
      one row per zone until the room is used up, the steps run out, or a
      step fails (an enumeration failure or offsets ICU cannot compute);
      a failing step is consumed, and emits no row. */
  function FillRows(steps: seq<ZoneStep>, facts: string -> ZoneFacts, room: nat): (f: Fill)
    ensures |f.rows| <= room && |f.rows| <= f.consumed <= |steps|
    decreases room
  {
    if room == 0 || steps == [] then Fill([], 0)
    else match steps[0]
      case EnumerationFailure => Fill([], 1)
      case Zone(id) =>
        match RowOf(id, facts(id))
        case None => Fill([], 1)
        case Some(row) =>
          var rest := FillRows(steps[1..], facts, room - 1);
          Fill([row] + rest.rows, rest.consumed + 1)
  }

  /** The number of leading steps that each yield a row. */
  function GoodPrefix(steps: seq<ZoneStep>, facts: string -> ZoneFacts): nat
  {
    if steps == [] || steps[0].EnumerationFailure? || facts(steps[0].longId).offsets.None? then 0
    else 1 + GoodPrefix(steps[1..], facts)
  }

  function Min(a: nat, b: nat): nat
  {
    if a <= b then a else b
  }

  /** One call emits exactly the leading good steps that fit, one row per
      zone: named after the zone, abbreviated by `ShortIdOf` of its
      equivalent ids, with its raw offset and a daylight-saving flag set iff
      its DST offset is nonzero. It consumes one step per row, plus the
      failing step that ended it when the room and the steps were not used
      up. */
  lemma {:induction false} FillRowsShape(steps: seq<ZoneStep>, facts: string -> ZoneFacts, room: nat)
    ensures |FillRows(steps, facts, room).rows| == Min(room, GoodPrefix(steps, facts))
    ensures var f := FillRows(steps, facts, room);
      f.consumed == |f.rows| + (if |f.rows| < room && |f.rows| < |steps| then 1 else 0)
    ensures forall k :: 0 <= k < |FillRows(steps, facts, room).rows| ==>
      var row := FillRows(steps, facts, room).rows[k];
      steps[k] == Zone(row.name) && RowOf(row.name, facts(row.name)) == Some(row)
    decreases room
  {
    if room > 0 && steps != [] && steps[0].Zone? && facts(steps[0].longId).offsets.Some? {
      FillRowsShape(steps[1..], facts, room - 1);
      var rows := FillRows(steps, facts, room).rows;
      forall k | 0 <= k < |rows|
        ensures steps[k] == Zone(rows[k].name) && RowOf(rows[k].name, facts(rows[k].name)) == Some(rows[k])
      {
        if k > 0 {
          assert rows[k] == FillRows(steps[1..], facts, room - 1).rows[k - 1];
          assert steps[k] == steps[1..][k - 1];
        }
      }
    }
  }

  /** Every abbreviation is the zone's own name or free of `/`. */
  lemma RowAbbreviation(id: string, zone: ZoneFacts)
    requires RowOf(id, zone).Some?
    ensures RowOf(id, zone).value.abbrev == id || '/' !in RowOf(id, zone).value.abbrev
  {
    ShortIdOfShape(id, zone.equivalentIds);
  }

  /** The enumeration state of one scan, kept across calls. */
  class TimeZoneScan {
    const steps: seq<ZoneStep>
    var position: nat

    ghost predicate Valid()
      reads this
    {
      position <= |steps|
    }

    constructor (steps: seq<ZoneStep>)
      ensures Valid() && this.steps == steps && position == 0
    {
      this.steps := steps;
      position := 0;
    }

    /** The next answer of the enumeration; `None` at its end. */
    method Next() returns (step: Option<ZoneStep>)
      requires Valid()
      modifies this
      ensures Valid()
      ensures old(position) < |steps| ==> step == Some(steps[old(position)]) && position == old(position) + 1
      ensures old(position) == |steps| ==> step == None && position == old(position)
    {
      if position < |steps| {
        step := Some(steps[position]);
        position := position + 1;
      } else {
        step := None;
      }
    }
  }

  /** The output vectors of one call, one column per array. */
  class TimeZoneChunk {
    const name: array<string>
    const abbrev: array<string>
    const utcOffsetMs: array<int>
    const isDst: array<bool>
    var cardinality: nat

    /** Four columns of one vector's length each. Only the two string
        columns could be the same array; the other columns differ from them
        and from each other by element type. */
    ghost predicate Shaped()
    {
      name.Length == StandardVectorSize && abbrev.Length == StandardVectorSize &&
      utcOffsetMs.Length == StandardVectorSize && isDst.Length == StandardVectorSize &&
      name != abbrev
    }

    ghost predicate Valid()
      reads this
    {
      Shaped() && cardinality <= StandardVectorSize
    }

    constructor ()
      ensures Valid() && cardinality == 0
      ensures fresh(name) && fresh(abbrev) && fresh(utcOffsetMs) && fresh(isDst)
    {
      name := new string[StandardVectorSize];
      abbrev := new string[StandardVectorSize];
      utcOffsetMs := new int[StandardVectorSize];
      isDst := new bool[StandardVectorSize];
      cardinality := 0;
    }

    /** Writes the name columns of row `k`. */
    method SetNames(k: nat, zoneName: string, zoneAbbrev: string)
      requires Valid() && k < StandardVectorSize
      modifies name, abbrev
      ensures name[k] == zoneName && abbrev[k] == zoneAbbrev
      ensures forall j :: 0 <= j < StandardVectorSize && j != k ==> name[j] == old(name[j]) && abbrev[j] == old(abbrev[j])
    {
      name[k] := zoneName;
      abbrev[k] := zoneAbbrev;
    }

    /** Writes the offset columns of row `k`. */
    method SetOffsets(k: nat, offsetMs: int, dst: bool)
      requires Valid() && k < StandardVectorSize
      modifies utcOffsetMs, isDst
      ensures utcOffsetMs[k] == offsetMs && isDst[k] == dst
      ensures forall j :: 0 <= j < StandardVectorSize && j != k ==> utcOffsetMs[j] == old(utcOffsetMs[j]) && isDst[j] == old(isDst[j])
    {
      utcOffsetMs[k] := offsetMs;
      isDst[k] := dst;
    }

    /** Row `k` of the output holds `row`. */
    ghost predicate HoldsRow(k: nat, row: Row)
      reads name, abbrev, utcOffsetMs, isDst
      requires Shaped() && k < StandardVectorSize
    {
      name[k] == row.name && abbrev[k] == row.abbrev && utcOffsetMs[k] == row.utcOffsetMs && isDst[k] == row.isDst
    }
  }

  /** A zone that yields a row: the row, then the rows of the rest. */
  lemma FillRowsZone(steps: seq<ZoneStep>, facts: string -> ZoneFacts, room: nat, row: Row)
    requires room > 0 && steps != [] && steps[0].Zone? && facts(steps[0].longId).offsets.Some?
    requires RowOf(steps[0].longId, facts(steps[0].longId)) == Some(row)
    ensures FillRows(steps, facts, room).rows == [row] + FillRows(steps[1..], facts, room - 1).rows
    ensures FillRows(steps, facts, room).consumed == 1 + FillRows(steps[1..], facts, room - 1).consumed
  {
  }

  /** A failing step ends the call, consumed and without a row. */
  lemma FillRowsStop(steps: seq<ZoneStep>, facts: string -> ZoneFacts, room: nat)
    requires room > 0 && steps != []
    requires steps[0].EnumerationFailure? || facts(steps[0].longId).offsets.None?
    ensures FillRows(steps, facts, room) == Fill([], 1)
  {
  }

  /** After `rows` have been emitted and the enumeration has reached
      `position`, the rows and steps still to come complete what the call as
      a whole emits (`total`) and consumes since `start`. */
  ghost predicate ProgressAt(steps: seq<ZoneStep>, position: nat, facts: string -> ZoneFacts, start: nat,
                             total: Fill, rows: seq<Row>)
    requires start <= position <= |steps| && |rows| <= StandardVectorSize
  {
    var rest := FillRows(steps[position..], facts, StandardVectorSize - |rows|);
    total.rows == rows + rest.rows && total.consumed == position - start + rest.consumed
  }

  ghost predicate Progress(data: TimeZoneScan, facts: string -> ZoneFacts, start: nat, total: Fill, rows: seq<Row>)
    reads data
    requires data.Valid() && start <= data.position && |rows| <= StandardVectorSize
  {
    ProgressAt(data.steps, data.position, facts, start, total, rows)
  }

  /** A failing step, or the end of the enumeration, completes the call. */
  lemma ProgressStops(steps: seq<ZoneStep>, position: nat, facts: string -> ZoneFacts, start: nat,
                      total: Fill, rows: seq<Row>)
    requires start <= position <= |steps| && |rows| < StandardVectorSize
    requires ProgressAt(steps, position, facts, start, total, rows)
    requires position < |steps| ==> steps[position].EnumerationFailure? || facts(steps[position].longId).offsets.None?
    ensures total == Fill(rows, (if position < |steps| then position + 1 else position) - start)
  {
    if position < |steps| {
      FillRowsStop(steps[position..], facts, StandardVectorSize - |rows|);
    }
    assert rows + [] == rows;
  }

  /** A zone with offsets adds its row and moves one step on. */
  lemma ProgressZone(steps: seq<ZoneStep>, position: nat, facts: string -> ZoneFacts, start: nat,
                     total: Fill, rows: seq<Row>, row: Row)
    requires start <= position < |steps| && |rows| < StandardVectorSize
    requires ProgressAt(steps, position, facts, start, total, rows)
    requires steps[position].Zone? && facts(steps[position].longId).offsets.Some?
    requires RowOf(steps[position].longId, facts(steps[position].longId)) == Some(row)
    ensures ProgressAt(steps, position + 1, facts, start, total, rows + [row])
  {
    var room := StandardVectorSize - |rows|;
    FillRowsZone(steps[position..], facts, room, row);
    assert steps[position..][1..] == steps[position + 1..];
    var next := FillRows(steps[position + 1..], facts, room - 1);
    assert rows + ([row] + next.rows) == (rows + [row]) + next.rows;
  }

  /** One turn of the row loop: asks the enumeration for the next zone and,
      when it yields a row, writes that row at `index`. `more` says whether
      the loop goes on; a zone whose offsets fail leaves its name columns
      written but is not counted. */
  method EmitRow(data: TimeZoneScan, facts: string -> ZoneFacts, output: TimeZoneChunk, index: nat,
                 ghost start: nat, ghost total: Fill, ghost rows: seq<Row>)
    returns (more: bool, ghost rows': seq<Row>)
    requires data.Valid() && output.Valid() && start <= data.position
    requires index == |rows| < StandardVectorSize && Progress(data, facts, start, total, rows)
    requires forall k :: 0 <= k < index ==> output.HoldsRow(k, rows[k])
    modifies data, output.name, output.abbrev, output.utcOffsetMs, output.isDst
    ensures data.Valid() && start <= data.position
    ensures |rows'| <= StandardVectorSize && (!more ==> rows' == rows)
    ensures more ==> |rows'| == index + 1 && Progress(data, facts, start, total, rows')
    ensures !more ==> total == Fill(rows, data.position - start)
    ensures forall k :: 0 <= k < |rows'| ==> output.HoldsRow(k, rows'[k])
    ensures !more && old(data.position) < |data.steps| && data.steps[old(data.position)].Zone? ==>
      var id := data.steps[old(data.position)].longId;
      output.name[index] == id && output.abbrev[index] == ShortIdOf(id, facts(id).equivalentIds)
  {
    ghost var position := data.position;
    rows' := rows;
    var step := data.Next();
    if step.None? || step.value.EnumerationFailure? {
      ProgressStops(data.steps, position, facts, start, total, rows);
      return false, rows';
    }
    var longId := step.value.longId;
    var shortId := ShortId(longId, facts(longId).equivalentIds);
    output.SetNames(index, longId, shortId);
    var offsets := facts(longId).offsets;
    if offsets.None? {
      ProgressStops(data.steps, position, facts, start, total, rows);
      return false, rows';
    }
    ghost var row := Row(longId, shortId, offsets.value.rawOffsetMs, offsets.value.dstOffsetMs != 0);
    output.SetOffsets(index, offsets.value.rawOffsetMs, offsets.value.dstOffsetMs != 0);
    ProgressZone(data.steps, position, facts, start, total, rows, row);
    rows' := rows + [row];
    more := true;
  }

  /** The row loop of one call: emits rows until `EmitRow` stops or the
      vector is full. */
  method EmitRows(data: TimeZoneScan, facts: string -> ZoneFacts, output: TimeZoneChunk, ghost total: Fill)
    returns (count: nat, ghost rows: seq<Row>)
    requires data.Valid() && output.Valid()
    requires total == FillRows(data.steps[data.position..], facts, StandardVectorSize)
    modifies data, output.name, output.abbrev, output.utcOffsetMs, output.isDst
    ensures data.Valid() && old(data.position) <= data.position && count == |rows| <= StandardVectorSize
    ensures total == Fill(rows, data.position - old(data.position))
    ensures forall k :: 0 <= k < count ==> output.HoldsRow(k, rows[k])
  {
    ghost var start := data.position;
    rows := [];
    assert rows + total.rows == total.rows;
    assert Progress(data, facts, start, total, rows);
    count := 0;
    while count < StandardVectorSize
      invariant data.Valid() && start <= data.position
      invariant count == |rows| <= StandardVectorSize
      invariant Progress(data, facts, start, total, rows)
      invariant forall k :: 0 <= k < count ==> output.HoldsRow(k, rows[k])
    {
      var more;
      more, rows := EmitRow(data, facts, output, count, start, total, rows);
      if !more {
        return;
      }
      count := count + 1;
    }
    assert rows + [] == rows;
  }

  /** One call of the table function: writes the rows `FillRows` gives for
      the rest of the enumeration into the output, sets the cardinality to
      their number and leaves the enumeration after the consumed steps. */
  method TimeZoneFunction(data: TimeZoneScan, facts: string -> ZoneFacts, output: TimeZoneChunk)
    requires data.Valid() && output.Valid()
    modifies data, output, output.name, output.abbrev, output.utcOffsetMs, output.isDst
    ensures data.Valid() && output.Valid()
    ensures var f := FillRows(data.steps[old(data.position)..], facts, StandardVectorSize);
      output.cardinality == |f.rows| && data.position == old(data.position) + f.consumed &&
      forall k :: 0 <= k < output.cardinality ==> output.HoldsRow(k, f.rows[k])
  {
    ghost var total := FillRows(data.steps[data.position..], facts, StandardVectorSize);
    var count;
    ghost var rows;
    count, rows := EmitRows(data, facts, output, total);
    output.cardinality := count;
  }
}
