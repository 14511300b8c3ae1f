/**
 * The parser object (homethermostatetl/ecobee.py:4-66): two attributes that
 * `process` replaces with freshly extracted records, and the two static
 * extraction routines, written as the loops the source runs and proved to
 * compute `Events.Events` and `Sensors.Sensors`.
 */
module Ecobee {

  import opened Wrappers
  import opened Report
  import opened Gather
  import opened Manifest
  import opened Events
  import opened Sensors

  class EcobeeParser {

    /** The event records of the last processed payload (class default `[]`). */
    var events: seq<Record>

    /**
     * The sensor records of the last processed payload: `None` after a
     * payload whose `sensorList` is absent or empty (class default `[]`).
     */
    var sensors: Option<seq<Record>>

    /** An object that has processed nothing holds the class-level defaults (ecobee.py:5-6). */
    constructor Empty()
      ensures events == [] && sensors == Some([])
    {
      events := [];
      sensors := Some([]);
    }

    /**
     * `EcobeeParser(data, process_events, process_sensors)` (ecobee.py:8-10):
     * without a payload the object keeps the defaults; with one it is
     * processed at once, and an exception escapes the constructor, so no
     * object is returned.
     */
    static method New(data: Option<Payload>, processEvents: bool, processSensors: bool)
      returns (r: Result<EcobeeParser, Error>)
      ensures data.None? ==> r.Ok? && r.value.events == [] && r.value.sensors == Some([])
      ensures data.Some? ==> (r.Err? <==> Fails(data.value, processEvents, processSensors))
      ensures data.Some? && r.Err? ==> r.error == FirstError(data.value, processEvents, processSensors)
      ensures data.Some? && r.Ok? ==>
                && r.value.events == (if processEvents then Events.Events(data.value).value else [])
                && r.value.sensors == (if processSensors then Sensors.Sensors(data.value).value else Some([]))
      ensures r.Ok? ==> fresh(r.value)
    {
      var p := new EcobeeParser.Empty();
      if data.None? {
        return Ok(p);
      }
      var err := p.Process(data.value, processEvents, processSensors);
      if err.Some? {
        return Err(err.value);
      }
      r := Ok(p);
    }

    /**
     * `process(data, process_events, process_sensors)` (ecobee.py:12-14):
     * each selected attribute is replaced by what its routine returns. An
     * exception from the events routine leaves both attributes as they were
     * and skips the sensors; one from the sensors routine comes after the
     * new events are stored, so those stay. `err` is the exception, if any.
     */
    method Process(data: Payload, processEvents: bool, processSensors: bool) returns (err: Option<Error>)
      modifies this
      ensures err.Some? <==> Fails(data, processEvents, processSensors)
      ensures err.Some? ==> err.value == FirstError(data, processEvents, processSensors)
      ensures processEvents && Events.Events(data).Err? ==> events == old(events) && sensors == old(sensors)
      ensures !(processEvents && Events.Events(data).Err?) ==>
                && events == (if processEvents then Events.Events(data).value else old(events))
                && sensors == (if processSensors && Sensors.Sensors(data).Ok? then Sensors.Sensors(data).value else old(sensors))
    {
      if processEvents {
        var e := ProcessEvents(data);
        if e.Err? {
          return Some(e.error);
        }
        events := e.value;
      }
      if processSensors {
        var s := ProcessSensors(data);
        if s.Err? {
          return Some(s.error);
        }
        sensors := s.value;
      }
      err := None;
    }

    /**
     * `_process_events(data)` (ecobee.py:16-38): every row of every block
     * of `reportList`, in order, one record per row; the first exception
     * ends the call.
     */
    static method ProcessEvents(data: Payload) returns (r: Result<seq<Record>, Error>)
      ensures r == Events.Events(data)
    {
      var columns := EventColumns(data);
      var blocks := data.reportList.GetOr([]);
      ghost var outcomes := BlockResults(columns, blocks);
      var entries: seq<Record> := [];
      var b := 0;
      while b < |blocks|
        invariant 0 <= b <= |blocks|
        invariant Flat(outcomes[..b]) == Ok(entries)
      {
        BlockResultsPrefix(columns, blocks, b);
        var rows := blocks[b].rowList;
        var id := blocks[b].thermostatIdentifier;
        if rows.None? {
          FlatSnoc(outcomes, b);
          FlatPrefix(outcomes, b + 1);
          assert outcomes[..|blocks|] == outcomes;
          return Err(TypeError("rowList"));
        }
        var records := ProcessRows(id, columns, rows.value);
        FlatSnoc(outcomes, b);
        if records.Err? {
          FlatPrefix(outcomes, b + 1);
          assert outcomes[..|blocks|] == outcomes;
          return Err(records.error);
        }
        entries := entries + records.value;
        b := b + 1;
      }
      assert outcomes[..|blocks|] == outcomes;
      r := Ok(entries);
    }

    /** The loop over one block's `rowList` (ecobee.py:25-37): one record per row, in order. */
    static method ProcessRows(id: Option<string>, columns: seq<string>, rows: seq<string>)
      returns (r: Result<seq<Record>, Error>)
      ensures r == EventsOfRows(id, columns, rows)
    {
      ghost var steps := EventResults(id, columns, rows);
      var entries: seq<Record> := [];
      var j := 0;
      while j < |rows|
        invariant 0 <= j <= |rows|
        invariant All(steps[..j]) == Ok(entries)
      {
        EventResultsPrefix(id, columns, rows, j);
        var record := EventRecord(id, columns, rows[j]);
        AllSnoc(steps, j);
        if record.Err? {
          AllPrefix(steps, j + 1);
          assert steps[..|rows|] == steps;
          return Err(record.error);
        }
        entries := entries + [record.value];
        j := j + 1;
      }
      assert steps[..|rows|] == steps;
      r := Ok(entries);
    }

    /**
     * `_process_sensors(data)` (ecobee.py:40-66). The `return` sits inside
     * the loop over `sensorList`, so the loop body runs for the first block
     * only: an absent or empty list returns `None`. For that block the
     * manifest is built, then every data row is fanned out to one record
     * per manifest entry.
     */
    static method ProcessSensors(data: Payload) returns (r: Result<Option<seq<Record>>, Error>)
      ensures r == Sensors.Sensors(data)
    {
      var blocks := data.sensorList.GetOr([]);
      if blocks == [] {
        return Ok(None);
      }
      var block := blocks[0];
      var id := block.thermostatIdentifier;
      var columns := block.columns;
      if block.sensors.None? {
        return Err(TypeError("sensors"));
      }
      var m := BuildSensors(block.sensors.value);
      if m.Err? {
        return Err(m.error);
      }
      if block.data.None? {
        return Err(TypeError("data"));
      }
      var rows := block.data.value;
      ghost var outcomes := RowResults(id, columns, m.value, rows);
      var entries: seq<Record> := [];
      var j := 0;
      while j < |rows|
        invariant 0 <= j <= |rows|
        invariant Flat(outcomes[..j]) == Ok(entries)
      {
        RowResultsPrefix(id, columns, m.value, rows, j);
        var row := SensorRow(id, columns, rows[j]);
        FlatSnoc(outcomes, j);
        if row.Err? {
          FlatPrefix(outcomes, j + 1);
          assert outcomes[..|rows|] == outcomes;
          return Err(row.error);
        }
        var sensorRows := FanOutRow(row.value, m.value);
        if sensorRows.Err? {
          FlatPrefix(outcomes, j + 1);
          assert outcomes[..|rows|] == outcomes;
          return Err(sensorRows.error);
        }
        entries := entries + sensorRows.value;
        j := j + 1;
      }
      assert outcomes[..|rows|] == outcomes;
      r := Ok(Some(entries));
    }

    /** `{x["sensorId"]: x for x in sensors}` (ecobee.py:48), one descriptor at a time. */
    static method BuildSensors(descs: seq<Descriptor>) returns (r: Result<seq<Sensor>, Error>)
      ensures r == BuildManifest(descs)
    {
      var m: seq<Sensor> := [];
      var k := 0;
      while k < |descs|
        invariant 0 <= k <= |descs|
        invariant BuildManifest(descs[..k]) == Ok(m)
      {
        var d := descs[k];
        assert descs[..k + 1][..k] == descs[..k];
        if SensorIdKey !in d {
          BuildManifestStops(descs, k + 1);
          return Err(KeyError(Str(SensorIdKey)));
        }
        m := Insert(m, Sensor(d[SensorIdKey], d));
        k := k + 1;
      }
      assert descs[..|descs|] == descs;
      r := Ok(m);
    }

    /** The loop over `sensors.items()` (ecobee.py:59-64): one record per manifest entry, in order. */
    static method FanOutRow(row: Record, m: seq<Sensor>) returns (r: Result<seq<Record>, Error>)
      ensures r == FanOut(row, m)
    {
      ghost var steps := FanOutResults(row, m);
      var sensorRows: seq<Record> := [];
      var i := 0;
      while i < |m|
        invariant 0 <= i <= |m|
        invariant All(steps[..i]) == Ok(sensorRows)
      {
        FanOutResultsPrefix(row, m, i);
        var record := SensorRecord(row, m[i]);
        AllSnoc(steps, i);
        if record.Err? {
          AllPrefix(steps, i + 1);
          assert steps[..|m|] == steps;
          return Err(record.error);
        }
        sensorRows := sensorRows + [record.value];
        i := i + 1;
      }
      assert steps[..|m|] == steps;
      r := Ok(sensorRows);
    }
  }

  /** Whether `process` raises: the events routine fails, or it succeeds (or is skipped) and the sensors routine fails. */
  predicate Fails(data: Payload, processEvents: bool, processSensors: bool) {
    (processEvents && Events.Events(data).Err?) || (processSensors && Sensors.Sensors(data).Err?)
  }

  /** The exception `process` raises: the events routine runs first. */
  function FirstError(data: Payload, processEvents: bool, processSensors: bool): Error
    requires Fails(data, processEvents, processSensors)
  {
    if processEvents && Events.Events(data).Err? then Events.Events(data).error
    else Sensors.Sensors(data).error
  }
}
