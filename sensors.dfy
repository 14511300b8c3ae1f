/**
 * The sensor extractor, `EcobeeParser._process_sensors`
 * (homethermostatetl/ecobee.py:40-66), as specification functions, with the
 * lemmas that say what the extracted records are.
 *
 * Each data row becomes one record per sensor of the block's manifest. Only
 * the first block of `sensorList` is ever processed: the `return` sits inside
 * the loop over blocks, so an absent or empty `sensorList` returns `None`.
 *
 * The method that runs the loops is `Ecobee.EcobeeParser.ProcessSensors`; it
 * is proved to compute `Sensors`.
 */
module Sensors {

  import opened Wrappers
  import opened Timestamp
  import opened Tokenizer
  import opened Report
  import opened Gather
  import opened Manifest

  const ValueKey: string := "value"

  /** The dict built for one data row before its timestamp is parsed (ecobee.py:55-56). */
  function SensorBase(id: Option<string>, columns: seq<string>, row: string): Record {
    ZipMap(columns, SensorTokens(row))[ThermostatKey := FromOption(id)]
  }

  /**
   * One data row (ecobee.py:50-58): tokenize, zip against the block's
   * columns, set the thermostat id, replace "date" with the parsed timestamp,
   * drop "time". Zipping against a missing `columns` raises TypeError, and a
   * text that does not parse raises.
   */
  function SensorRow(id: Option<string>, columns: Option<seq<string>>, row: string): (r: Result<Record, Error>)
    ensures r.Ok? ==> TimeKey !in r.value && DateKey in r.value && r.value[DateKey].Stamp?
  {
    if columns.None? then Err(TypeError("columns"))
    else
      var base := SensorBase(id, columns.value, row);
      var text := StampText(base);
      match Parse(text)
      case None => Err(TimestampError(text))
      case Some(t) => Ok(base[DateKey := Stamp(t)] - {TimeKey})
  }

  /** The entries of a row the sensor records carry over (ecobee.py:62). */
  function Carried(row: Record): Record {
    map k | k in row && (k == ThermostatKey || k == DateKey || k == TimeKey) :: row[k]
  }

  /**
   * One sensor record (ecobee.py:61-63): a copy of the sensor's descriptor,
   * updated with the row's thermostat id and date, then with "value", the
   * row's entry for the sensor id. A sensor id the row does not have raises
   * KeyError; a key that is not a string is never a column name.
   */
  function SensorRecord(row: Record, s: Sensor): Result<Record, Error> {
    match s.id
    case Str(c) => if c in row then Ok((s.fields + Carried(row))[ValueKey := row[c]]) else Err(KeyError(s.id))
    case _ => Err(KeyError(s.id))
  }

  /** The outcome for every sensor of the manifest, in manifest order. */
  function FanOutResults(row: Record, m: seq<Sensor>): (r: seq<Result<Record, Error>>)
    ensures |r| == |m|
  {
    Map(s => SensorRecord(row, s), m)
  }

  lemma FanOutResultsPrefix(row: Record, m: seq<Sensor>, n: nat)
    requires n <= |m|
    ensures FanOutResults(row, m)[..n] == FanOutResults(row, m[..n])
    ensures n < |m| ==> FanOutResults(row, m)[n] == SensorRecord(row, m[n])
  {
    MapPrefix(s => SensorRecord(row, s), m, n);
  }

  /** The records of one row: one per sensor, in manifest order (ecobee.py:59-64). */
  function FanOut(row: Record, m: seq<Sensor>): Result<seq<Record>, Error> {
    All(FanOutResults(row, m))
  }

  /** All records of one data row, or the first error on the way. */
  function RowRecords(id: Option<string>, columns: Option<seq<string>>, m: seq<Sensor>, row: string): Result<seq<Record>, Error> {
    match SensorRow(id, columns, row)
    case Err(e) => Err(e)
    case Ok(r) => FanOut(r, m)
  }

  /** The outcome of every data row, in row order. */
  function RowResults(id: Option<string>, columns: Option<seq<string>>, m: seq<Sensor>, rows: seq<string>)
    : (r: seq<Result<seq<Record>, Error>>)
    ensures |r| == |rows|
  {
    Map(row => RowRecords(id, columns, m, row), rows)
  }

  lemma RowResultsPrefix(id: Option<string>, columns: Option<seq<string>>, m: seq<Sensor>, rows: seq<string>, n: nat)
    requires n <= |rows|
    ensures RowResults(id, columns, m, rows)[..n] == RowResults(id, columns, m, rows[..n])
    ensures n < |rows| ==> RowResults(id, columns, m, rows)[n] == RowRecords(id, columns, m, rows[n])
  {
    MapPrefix(row => RowRecords(id, columns, m, row), rows, n);
  }

  /** The records of all data rows of a block, row after row (ecobee.py:49-65). */
  function SensorRows(id: Option<string>, columns: Option<seq<string>>, m: seq<Sensor>, rows: seq<string>): Result<seq<Record>, Error> {
    Flat(RowResults(id, columns, m, rows))
  }

  /**
   * The records of one block (ecobee.py:46-65), with its errors in the order
   * the source meets them: a missing `sensors` manifest, a descriptor
   * without "sensorId", a missing `data`, then the rows.
   */
  function BlockRecords(b: SensorBlock): Result<seq<Record>, Error> {
    if b.sensors.None? then Err(TypeError("sensors"))
    else
      match BuildManifest(b.sensors.value)
      case Err(e) => Err(e)
      case Ok(m) =>
        if b.data.None? then Err(TypeError("data"))
        else SensorRows(b.thermostatIdentifier, b.columns, m, b.data.value)
  }

  /**
   * `_process_sensors(data)`: `None` exactly when `sensorList` is absent or
   * empty; otherwise the records of its first block.
   */
  function Sensors(p: Payload): (r: Result<Option<seq<Record>>, Error>)
    ensures r == Ok(None) <==> p.sensorList.GetOr([]) == []
  {
    var blocks := p.sensorList.GetOr([]);
    if blocks == [] then Ok(None)
    else
      match BlockRecords(blocks[0])
      case Err(e) => Err(e)
      case Ok(rs) => Ok(Some(rs))
  }

  /** Only the first block counts: two payloads whose `sensorList` starts with the same block give the same result. */
  lemma FirstBlockOnly(p: Payload, q: Payload)
    requires p.sensorList.GetOr([]) != [] && q.sensorList.GetOr([]) != []
    requires p.sensorList.value[0] == q.sensorList.value[0]
    ensures Sensors(p) == Sensors(q)
    ensures Sensors(p).Ok? <==> BlockRecords(p.sensorList.value[0]).Ok?
  {
  }

  /**
   * A sensor yields a record exactly when its id is a string naming an
   * entry of the row; otherwise the row raises KeyError for that id.
   */
  lemma SensorRecordOk(row: Record, s: Sensor)
    ensures SensorRecord(row, s).Ok? <==> s.id.Str? && s.id.text in row
    ensures SensorRecord(row, s).Err? ==> SensorRecord(row, s).error == KeyError(s.id)
  {
  }

  /**
   * What a sensor record holds: "value" is the row's entry for the sensor
   * id; the thermostat id and date come from the row where the row has
   * them; every other key and its value come from the sensor's descriptor.
   */
  lemma SensorRecordContents(row: Record, s: Sensor)
    requires SensorRecord(row, s).Ok?
    ensures var r := SensorRecord(row, s).value;
            && (forall k :: k in r <==>
                  (k == ValueKey || k in s.fields
                   || (k in row && (k == ThermostatKey || k == DateKey || k == TimeKey))))
            && r[ValueKey] == row[s.id.text]
            && (ThermostatKey in row ==> r[ThermostatKey] == row[ThermostatKey])
            && (DateKey in row ==> r[DateKey] == row[DateKey])
            && (forall k :: k in s.fields && k != ValueKey
                             && !(k in row && (k == ThermostatKey || k == DateKey || k == TimeKey))
                  ==> r[k] == s.fields[k])
  {
  }

  /**
   * One record per sensor, in manifest order, exactly when every sensor id
   * names an entry of the row.
   */
  lemma FanOutOk(row: Record, m: seq<Sensor>)
    ensures FanOut(row, m).Ok? <==> forall i :: 0 <= i < |m| ==> SensorRecord(row, m[i]).Ok?
    ensures FanOut(row, m).Ok? ==>
              |FanOut(row, m).value| == |m|
              && forall i :: 0 <= i < |m| ==> FanOut(row, m).value[i] == SensorRecord(row, m[i]).value
  {
    var results := FanOutResults(row, m);
    forall i | 0 <= i < |m| ensures results[i] == SensorRecord(row, m[i]) {
      FanOutResultsPrefix(row, m, i);
    }
    AllOk(results);
  }

  /**
   * Under standard columns, a data row that yields a record carries the
   * block's thermostat id whatever the columns say, and is dated at the
   * instant printed as its date token, a space and its time token.
   */
  lemma SensorRowStamp(id: Option<string>, columns: seq<string>, row: string)
    requires StandardColumns(columns)
    requires SensorRow(id, Some(columns), row).Ok?
    ensures var r := SensorRow(id, Some(columns), row).value;
            && ThermostatKey in r && r[ThermostatKey] == FromOption(id)
            && |SensorTokens(row)| >= 2
            && Format(r[DateKey].at) == TokenText(SensorTokens(row)[0]) + " " + TokenText(SensorTokens(row)[1])
  {
    var tokens := SensorTokens(row);
    var base := SensorBase(id, columns, row);
    if |tokens| < 2 {
      ZipMapKeys(columns, tokens);
      StampNeedsDateAndTime(base);
      assert false;
    }
    ZipMapAt(columns, tokens, 0);
    ZipMapAt(columns, tokens, 1);
    assert StampText(base) == TokenText(tokens[0]) + " " + TokenText(tokens[1]);
    ParseInverse(StampText(base));
  }

  /**
   * Every column other than "date", "time" and "thermostatIdentifier" of a
   * data row holds its positional token (the last one paired with that name
   * when the name repeats).
   */
  lemma SensorRowColumn(id: Option<string>, columns: seq<string>, row: string, i: nat)
    requires SensorRow(id, Some(columns), row).Ok?
    requires i < |columns| && i < |SensorTokens(row)| && LastAt(columns, |SensorTokens(row)|, i)
    requires columns[i] != DateKey && columns[i] != TimeKey && columns[i] != ThermostatKey
    ensures SensorRow(id, Some(columns), row).value[columns[i]] == FromOption(SensorTokens(row)[i])
  {
    ZipMapAt(columns, SensorTokens(row), i);
  }

  /**
   * The keys of a processed data row (ecobee.py:55-58): "thermostatIdentifier",
   * "date" and every column that received a token, and never "time". The
   * block's thermostat id is written after the zip, so it wins over a column
   * of that name.
   */
  lemma SensorRowKeys(id: Option<string>, columns: seq<string>, row: string)
    requires SensorRow(id, Some(columns), row).Ok?
    ensures var r := SensorRow(id, Some(columns), row).value;
            && (forall k :: k in r <==>
                  (k != TimeKey && (k == ThermostatKey || k == DateKey ||
                                    exists i :: 0 <= i < |columns| && i < |SensorTokens(row)| && columns[i] == k)))
            && r[ThermostatKey] == FromOption(id)
  {
    ZipMapKeys(columns, SensorTokens(row));
  }

  /**
   * The lookup `row[sensor]` (ecobee.py:63) raises KeyError for a sensor id
   * that is "time", or that no column paired with a token names and that is
   * neither "thermostatIdentifier" nor "date".
   */
  lemma SensorMissingFromRow(id: Option<string>, columns: seq<string>, row: string, s: Sensor)
    requires SensorRow(id, Some(columns), row).Ok?
    requires s.id.Str?
    requires || s.id.text == TimeKey
             || (&& s.id.text != ThermostatKey && s.id.text != DateKey
                 && forall i :: 0 <= i < |columns| && i < |SensorTokens(row)| ==> columns[i] != s.id.text)
    ensures SensorRecord(SensorRow(id, Some(columns), row).value, s) == Err(KeyError(s.id))
  {
    SensorRowKeys(id, columns, row);
  }

  /** Every data row that yields records yields one per sensor. */
  lemma RowResultsUniform(id: Option<string>, columns: Option<seq<string>>, m: seq<Sensor>, rows: seq<string>)
    ensures forall j :: 0 <= j < |rows| && RowResults(id, columns, m, rows)[j].Ok? ==>
              |RowResults(id, columns, m, rows)[j].value| == |m|
  {
    var results := RowResults(id, columns, m, rows);
    forall j | 0 <= j < |rows| && results[j].Ok? ensures |results[j].value| == |m| {
      RowResultsPrefix(id, columns, m, rows, j);
      RowRecordsCount(id, columns, m, rows[j]);
    }
  }

  /**
   * A block's rows extract without error exactly when every row does; the
   * records then number the rows times the sensors.
   */
  lemma SensorRowsCount(id: Option<string>, columns: Option<seq<string>>, m: seq<Sensor>, rows: seq<string>)
    ensures SensorRows(id, columns, m, rows).Ok?
            <==> forall j :: 0 <= j < |rows| ==> RowRecords(id, columns, m, rows[j]).Ok?
    ensures SensorRows(id, columns, m, rows).Ok? ==> |SensorRows(id, columns, m, rows).value| == |rows| * |m|
  {
    var results := RowResults(id, columns, m, rows);
    forall j | 0 <= j < |rows| ensures results[j] == RowRecords(id, columns, m, rows[j]) {
      RowResultsPrefix(id, columns, m, rows, j);
    }
    RowResultsUniform(id, columns, m, rows);
    FlatOk(results);
    if Flat(results).Ok? {
      FlatCount(results, |m|);
    }
  }

  /** A row that yields records yields one per sensor. */
  lemma RowRecordsCount(id: Option<string>, columns: Option<seq<string>>, m: seq<Sensor>, row: string)
    requires RowRecords(id, columns, m, row).Ok?
    ensures |RowRecords(id, columns, m, row).value| == |m|
  {
    FanOutOk(SensorRow(id, columns, row).value, m);
  }

  /**
   * Row-major order: the records of data row `j` stand at positions
   * `j * |m|` to `j * |m| + |m| - 1`, one per manifest entry, in manifest
   * order (`RowRecordAt` says which sensor's record is which).
   */
  lemma SensorRowsOrder(id: Option<string>, columns: Option<seq<string>>, m: seq<Sensor>, rows: seq<string>, j: nat, i: nat)
    requires SensorRows(id, columns, m, rows).Ok?
    requires j < |rows| && i < |m|
    ensures RowRecords(id, columns, m, rows[j]).Ok? && |RowRecords(id, columns, m, rows[j]).value| == |m|
    ensures Slot(j, |m|, i) < |SensorRows(id, columns, m, rows).value|
    ensures SensorRows(id, columns, m, rows).value[Slot(j, |m|, i)] == RowRecords(id, columns, m, rows[j]).value[i]
  {
    RowAt(id, columns, m, rows, j, i);
    RowResultsPrefix(id, columns, m, rows, j);
  }

  /** The records of data row `j` stand after `j` rows of one record per sensor each. */
  lemma RowAt(id: Option<string>, columns: Option<seq<string>>, m: seq<Sensor>, rows: seq<string>, j: nat, i: nat)
    requires SensorRows(id, columns, m, rows).Ok?
    requires j < |rows| && i < |m|
    ensures RowResults(id, columns, m, rows)[j].Ok? && |RowResults(id, columns, m, rows)[j].value| == |m|
    ensures Slot(j, |m|, i) < |SensorRows(id, columns, m, rows).value|
    ensures SensorRows(id, columns, m, rows).value[Slot(j, |m|, i)] == RowResults(id, columns, m, rows)[j].value[i]
  {
    RowResultsUniform(id, columns, m, rows);
    FlatUniformAt(RowResults(id, columns, m, rows), |m|, j, i);
  }

  /** Record `i` of a row is the record of sensor `i`. */
  lemma RowRecordAt(id: Option<string>, columns: Option<seq<string>>, m: seq<Sensor>, row: string, i: nat)
    requires RowRecords(id, columns, m, row).Ok? && i < |m|
    ensures SensorRow(id, columns, row).Ok?
    ensures SensorRecord(SensorRow(id, columns, row).value, m[i]).Ok?
    ensures i < |RowRecords(id, columns, m, row).value|
    ensures RowRecords(id, columns, m, row).value[i] == SensorRecord(SensorRow(id, columns, row).value, m[i]).value
  {
    FanOutOk(SensorRow(id, columns, row).value, m);
  }

  /**
   * The columns are only zipped against rows: a block with no data rows
   * extracts no records even when its `columns` is missing, while a block
   * with rows and no `columns` raises TypeError.
   */
  lemma ColumnsNeededOnlyForRows(id: Option<string>, m: seq<Sensor>, rows: seq<string>)
    ensures SensorRows(id, None, m, []) == Ok([])
    ensures rows != [] ==> SensorRows(id, None, m, rows) == Err(TypeError("columns"))
  {
    if rows != [] {
      var results := RowResults(id, None, m, rows);
      RowResultsPrefix(id, None, m, rows, 0);
      assert results[0] == Err(TypeError("columns"));
      FlatFirstErr(results);
    }
  }

  /** When the first step fails, `Flat` fails with its error. */
  lemma {:induction false} FlatFirstErr(rs: seq<Result<seq<Record>, Error>>)
    requires rs != [] && rs[0].Err?
    ensures Flat(rs) == Err(rs[0].error)
  {
    FlatPrefix(rs, 1);
    assert rs[..1] == [rs[0]];
    assert rs[..1][..0] == [];
  }

  /**
   * The order of a block's errors: without `sensors` it raises TypeError;
   * with a descriptor lacking "sensorId" it raises KeyError('sensorId')
   * before `data` is looked at; without `data` it raises TypeError.
   */
  lemma BlockErrors(b: SensorBlock)
    ensures b.sensors.None? ==> BlockRecords(b) == Err(TypeError("sensors"))
    ensures b.sensors.Some? && !AllIdentified(b.sensors.value) ==> BlockRecords(b) == Err(KeyError(Str(SensorIdKey)))
    ensures b.sensors.Some? && AllIdentified(b.sensors.value) && b.data.None? ==> BlockRecords(b) == Err(TypeError("data"))
  {
    if b.sensors.Some? {
      BuildManifestOk(b.sensors.value);
    }
  }
}
