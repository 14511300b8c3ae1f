/**
 * The event extractor, `EcobeeParser._process_events`
 * (homethermostatetl/ecobee.py:17-38), as specification functions, with the
 * lemmas that say what the extracted records are.
 *
 * The method that runs the nested loops is `Ecobee.EcobeeParser.ProcessEvents`;
 * it is proved to compute `Events`.
 */
module Events {

  import opened Wrappers
  import opened Timestamp
  import opened Tokenizer
  import opened Report
  import opened Gather

  /**
   * The working column list: "date" and "time", then the payload's
   * comma-joined `columns` split on commas, "" when the key is absent
   * (ecobee.py:20-21). The declared text is recovered by joining the tail.
   */
  function EventColumns(p: Payload): (r: seq<string>)
    ensures |r| == Count(p.columns.GetOr(""), Comma) + 3
    ensures r[0] == DateKey && r[1] == TimeKey
    ensures Join(r[2..]) == p.columns.GetOr("")
    ensures p.columns.None? ==> r == [DateKey, TimeKey, ""]
  {
    var declared := Split(p.columns.GetOr(""));
    JoinSplit(p.columns.GetOr(""));
    assert ([DateKey, TimeKey] + declared)[2..] == declared;
    [DateKey, TimeKey] + declared
  }

  /** The dict built for one row before its timestamp is parsed (ecobee.py:31-32). */
  function EventBase(id: Option<string>, columns: seq<string>, row: string): Record {
    map[ThermostatKey := FromOption(id)] + ZipMap(columns, EventTokens(row))
  }

  /**
   * One event row (ecobee.py:26-36): tokenize, zip against the columns over a
   * dict that already holds the thermostat id, replace "date" with the parsed
   * timestamp, drop "time". A text that does not parse raises.
   */
  function EventRecord(id: Option<string>, columns: seq<string>, row: string): (r: Result<Record, Error>)
    ensures r.Ok? ==> TimeKey !in r.value && DateKey in r.value && r.value[DateKey].Stamp?
  {
    var base := EventBase(id, columns, row);
    var text := StampText(base);
    match Parse(text)
    case None => Err(TimestampError(text))
    case Some(t) => Ok(base[DateKey := Stamp(t)] - {TimeKey})
  }

  /** The outcome of every row of a block, in row order. */
  function EventResults(id: Option<string>, columns: seq<string>, rows: seq<string>): (r: seq<Result<Record, Error>>)
    ensures |r| == |rows|
  {
    Map(row => EventRecord(id, columns, row), rows)
  }

  /** `EventResults` is computed row by row: its prefixes are the outcomes of the first rows. */
  lemma EventResultsPrefix(id: Option<string>, columns: seq<string>, rows: seq<string>, n: nat)
    requires n <= |rows|
    ensures EventResults(id, columns, rows)[..n] == EventResults(id, columns, rows[..n])
    ensures n < |rows| ==> EventResults(id, columns, rows)[n] == EventRecord(id, columns, rows[n])
  {
    MapPrefix(row => EventRecord(id, columns, row), rows, n);
  }

  /** The records of one block's rows (ecobee.py:25-37). */
  function EventsOfRows(id: Option<string>, columns: seq<string>, rows: seq<string>): Result<seq<Record>, Error> {
    All(EventResults(id, columns, rows))
  }

  /** The records of one block; a block without `rowList` raises TypeError (ecobee.py:23-25). */
  function BlockEvents(columns: seq<string>, block: ReportBlock): Result<seq<Record>, Error> {
    if block.rowList.None? then Err(TypeError("rowList"))
    else EventsOfRows(block.thermostatIdentifier, columns, block.rowList.value)
  }

  /** The outcome of every block, in block order. */
  function BlockResults(columns: seq<string>, blocks: seq<ReportBlock>): (r: seq<Result<seq<Record>, Error>>)
    ensures |r| == |blocks|
  {
    Map(block => BlockEvents(columns, block), blocks)
  }

  /** `BlockResults` is computed block by block: its prefixes are the outcomes of the first blocks. */
  lemma BlockResultsPrefix(columns: seq<string>, blocks: seq<ReportBlock>, n: nat)
    requires n <= |blocks|
    ensures BlockResults(columns, blocks)[..n] == BlockResults(columns, blocks[..n])
    ensures n < |blocks| ==> BlockResults(columns, blocks)[n] == BlockEvents(columns, blocks[n])
  {
    MapPrefix(block => BlockEvents(columns, block), blocks, n);
  }

  /** The records of a sequence of blocks, block after block (ecobee.py:22-37). */
  function EventsOfBlocks(columns: seq<string>, blocks: seq<ReportBlock>): Result<seq<Record>, Error> {
    Flat(BlockResults(columns, blocks))
  }

  /** `_process_events(data)`: an absent or empty `reportList` gives no records. */
  function Events(p: Payload): (r: Result<seq<Record>, Error>)
    ensures p.reportList.GetOr([]) == [] ==> r == Ok([])
  {
    EventsOfBlocks(EventColumns(p), p.reportList.GetOr([]))
  }

  /** The number of rows in a sequence of blocks (a block without `rowList` counts none). */
  function TotalRows(blocks: seq<ReportBlock>): nat {
    if blocks == [] then 0
    else TotalRows(blocks[..|blocks| - 1]) + |blocks[|blocks| - 1].rowList.GetOr([])|
  }

  /** One record per row, in row order, exactly when every row parses. */
  lemma EventsOfRowsOk(id: Option<string>, columns: seq<string>, rows: seq<string>)
    ensures EventsOfRows(id, columns, rows).Ok?
            <==> forall i :: 0 <= i < |rows| ==> EventRecord(id, columns, rows[i]).Ok?
    ensures EventsOfRows(id, columns, rows).Ok? ==>
              var rs := EventsOfRows(id, columns, rows).value;
              |rs| == |rows| && forall i :: 0 <= i < |rows| ==> rs[i] == EventRecord(id, columns, rows[i]).value
  {
    var results := EventResults(id, columns, rows);
    forall i | 0 <= i < |rows| ensures results[i] == EventRecord(id, columns, rows[i]) {
      EventResultsPrefix(id, columns, rows, i);
    }
    AllOk(results);
  }

  /** When a block's rows do not extract, the error is that of the first row that does not parse. */
  lemma EventsOfRowsErr(id: Option<string>, columns: seq<string>, rows: seq<string>)
    requires EventsOfRows(id, columns, rows).Err?
    ensures exists i :: 0 <= i < |rows| && EventRecord(id, columns, rows[i]) == Err(EventsOfRows(id, columns, rows).error)
                        && forall j :: 0 <= j < i ==> EventRecord(id, columns, rows[j]).Ok?
  {
    var results := EventResults(id, columns, rows);
    AllErr(results);
    var i :| 0 <= i < |results| && results[i] == Err(All(results).error) && forall j :: 0 <= j < i ==> results[j].Ok?;
    forall j | 0 <= j <= i ensures results[j] == EventRecord(id, columns, rows[j]) {
      EventResultsPrefix(id, columns, rows, j);
    }
  }

  /**
   * A payload's blocks extract without error exactly when every block has a
   * `rowList` and every one of its rows parses.
   */
  lemma EventsOfBlocksOk(columns: seq<string>, blocks: seq<ReportBlock>)
    ensures EventsOfBlocks(columns, blocks).Ok? <==>
            forall b :: 0 <= b < |blocks| ==>
              blocks[b].rowList.Some? && EventsOfRows(blocks[b].thermostatIdentifier, columns, blocks[b].rowList.value).Ok?
  {
    var results := BlockResults(columns, blocks);
    forall b | 0 <= b < |blocks| ensures results[b] == BlockEvents(columns, blocks[b]) {
      BlockResultsPrefix(columns, blocks, b);
    }
    FlatOk(results);
  }

  /**
   * Payload order: the records are all rows of the first block in row order,
   * then those of the second block, and so on. Row `j` of block `b` gives
   * the record that follows the records of the blocks before `b` by `j`.
   */
  lemma EventsInPayloadOrder(columns: seq<string>, blocks: seq<ReportBlock>, b: nat, j: nat)
    requires EventsOfBlocks(columns, blocks).Ok?
    requires b < |blocks| && j < |blocks[b].rowList.GetOr([])|
    ensures blocks[b].rowList.Some?
    ensures EventsOfBlocks(columns, blocks[..b]).Ok?
    ensures var offset := |EventsOfBlocks(columns, blocks[..b]).value|;
            && offset + j < |EventsOfBlocks(columns, blocks).value|
            && EventRecord(blocks[b].thermostatIdentifier, columns, blocks[b].rowList.value[j]).Ok?
            && EventsOfBlocks(columns, blocks).value[offset + j]
               == EventRecord(blocks[b].thermostatIdentifier, columns, blocks[b].rowList.value[j]).value
  {
    BlockAt(columns, blocks, b, j);
    RowAt(blocks[b].thermostatIdentifier, columns, blocks[b].rowList.value, j);
  }

  /** The records of block `b` follow those of the blocks before it. */
  lemma BlockAt(columns: seq<string>, blocks: seq<ReportBlock>, b: nat, j: nat)
    requires EventsOfBlocks(columns, blocks).Ok? && b < |blocks|
    ensures EventsOfBlocks(columns, blocks[..b]).Ok? && BlockEvents(columns, blocks[b]).Ok?
    ensures var offset := |EventsOfBlocks(columns, blocks[..b]).value|;
            var here := BlockEvents(columns, blocks[b]).value;
            j < |here| ==>
              && offset + j < |EventsOfBlocks(columns, blocks).value|
              && EventsOfBlocks(columns, blocks).value[offset + j] == here[j]
  {
    var results := BlockResults(columns, blocks);
    FlatAt(results, b, j);
    BlockResultsPrefix(columns, blocks, b);
  }

  /** Row `j` of a block that extracts without error gives its record at position `j`. */
  lemma RowAt(id: Option<string>, columns: seq<string>, rows: seq<string>, j: nat)
    requires EventsOfRows(id, columns, rows).Ok? && j < |rows|
    ensures j < |EventsOfRows(id, columns, rows).value|
    ensures EventRecord(id, columns, rows[j]).Ok?
    ensures EventsOfRows(id, columns, rows).value[j] == EventRecord(id, columns, rows[j]).value
  {
    var results := EventResults(id, columns, rows);
    AllOk(results);
    EventResultsPrefix(id, columns, rows, j);
  }

  /** One record per row: the extracted records number exactly the rows of all blocks. */
  lemma {:induction false} EventsCount(columns: seq<string>, blocks: seq<ReportBlock>)
    requires EventsOfBlocks(columns, blocks).Ok?
    ensures |EventsOfBlocks(columns, blocks).value| == TotalRows(blocks)
  {
    if blocks != [] {
      var front := blocks[..|blocks| - 1];
      var last := blocks[|blocks| - 1];
      var results := BlockResults(columns, blocks);
      assert results[..|blocks| - 1] == BlockResults(columns, front);
      FlatOk(results);
      assert results[|blocks| - 1].Ok?;
      EventsCount(columns, front);
      EventsOfRowsOk(last.thermostatIdentifier, columns, last.rowList.value);
    }
  }

  /**
   * Under standard columns the pre-parse dict holds the first token under
   * "date" and the second under "time"; a row with a single token leaves
   * "time" out.
   */
  lemma EventBaseStamp(id: Option<string>, columns: seq<string>, row: string)
    requires StandardColumns(columns)
    ensures var tokens, base := EventTokens(row), EventBase(id, columns, row);
            && (|tokens| < 2 ==> TimeKey !in base)
            && (|tokens| >= 2 ==> DateKey in base && base[DateKey] == FromOption(tokens[0])
                                  && TimeKey in base && base[TimeKey] == FromOption(tokens[1]))
  {
    var tokens := EventTokens(row);
    if |tokens| < 2 {
      ZipMapKeys(columns, tokens);
    } else {
      ZipMapAt(columns, tokens, 0);
      ZipMapAt(columns, tokens, 1);
    }
  }

  /**
   * Under standard columns, a row that yields a record has at least a date
   * and a time token, and the text handed to the parser joins them.
   */
  lemma EventStampTokens(id: Option<string>, columns: seq<string>, row: string)
    requires StandardColumns(columns)
    requires EventRecord(id, columns, row).Ok?
    ensures |EventTokens(row)| >= 2
    ensures StampText(EventBase(id, columns, row))
            == TokenText(EventTokens(row)[0]) + " " + TokenText(EventTokens(row)[1])
  {
    var base := EventBase(id, columns, row);
    EventBaseStamp(id, columns, row);
    if |EventTokens(row)| < 2 {
      StampNeedsDateAndTime(base);
      assert false;
    }
  }

  /**
   * The keys of an event record (ecobee.py:31-36): "thermostatIdentifier",
   * "date" and every column that received a token, and never "time".
   */
  lemma EventRecordKeys(id: Option<string>, columns: seq<string>, row: string)
    requires EventRecord(id, columns, row).Ok?
    ensures var rec := EventRecord(id, columns, row).value;
            forall k :: k in rec <==>
              (k != TimeKey && (k == ThermostatKey || k == DateKey ||
                                exists i :: 0 <= i < |columns| && i < |EventTokens(row)| && columns[i] == k))
  {
    ZipMapKeys(columns, EventTokens(row));
  }

  /**
   * The "date" of an event record is the instant that prints as the row's
   * date token, a space and its time token.
   */
  lemma EventRecordDate(id: Option<string>, columns: seq<string>, row: string)
    requires StandardColumns(columns)
    requires EventRecord(id, columns, row).Ok?
    ensures |EventTokens(row)| >= 2
    ensures Format(EventRecord(id, columns, row).value[DateKey].at)
            == TokenText(EventTokens(row)[0]) + " " + TokenText(EventTokens(row)[1])
  {
    EventStampTokens(id, columns, row);
    ParseInverse(StampText(EventBase(id, columns, row)));
  }

  /**
   * "thermostatIdentifier" holds the block's id unless a column of that name
   * received a token, which then overrides it.
   */
  lemma EventRecordThermostat(id: Option<string>, columns: seq<string>, row: string)
    requires EventRecord(id, columns, row).Ok?
    requires forall i :: 0 <= i < |columns| && i < |EventTokens(row)| ==> columns[i] != ThermostatKey
    ensures EventRecord(id, columns, row).value[ThermostatKey] == FromOption(id)
  {
    ZipMapKeys(columns, EventTokens(row));
    assert ThermostatKey !in ZipMap(columns, EventTokens(row));
  }

  /**
   * Every column other than "date" and "time" holds its positional token
   * (the last one paired with that name when the name repeats).
   */
  lemma EventRecordColumn(id: Option<string>, columns: seq<string>, row: string, i: nat)
    requires EventRecord(id, columns, row).Ok?
    requires i < |columns| && i < |EventTokens(row)| && LastAt(columns, |EventTokens(row)|, i)
    requires columns[i] != DateKey && columns[i] != TimeKey
    ensures EventRecord(id, columns, row).value[columns[i]] == FromOption(EventTokens(row)[i])
  {
    ZipMapAt(columns, EventTokens(row), i);
  }

  /**
   * Timestamp round trip: a row that starts with the date and time of a
   * valid instant, in the report's text form, yields a record dated at that
   * instant.
   */
  lemma EventTimestampRoundTrip(id: Option<string>, columns: seq<string>, t: DateTime, rest: string)
    requires Valid(t)
    requires StandardColumns(columns)
    requires rest == [] || rest[0] == Comma
    ensures var r := EventRecord(id, columns, FormatDate(t) + [Comma] + FormatTime(t) + rest);
            r.Ok? && r.value[DateKey] == Stamp(t)
  {
    var row := FormatDate(t) + [Comma] + FormatTime(t) + rest;
    StampTokens(t, rest);
    EventBaseStamp(id, columns, row);
    FormatSplit(t);
    assert StampText(EventBase(id, columns, row)) == Format(t);
    ParseFormat(t);
  }

  /** The row "date,time..." tokenizes to the date text, then the time text. */
  lemma StampTokens(t: DateTime, rest: string)
    requires Valid(t)
    requires rest == [] || rest[0] == Comma
    ensures var tokens := EventTokens(FormatDate(t) + [Comma] + FormatTime(t) + rest);
            |tokens| >= 2 && tokens[0] == Some(FormatDate(t)) && tokens[1] == Some(FormatTime(t))
  {
    var date, time := FormatDate(t), FormatTime(t);
    var row := date + [Comma] + time + rest;
    DateTextClean(t);
    SplitAfter(date, time + rest);
    assert row == date + [Comma] + (time + rest);
    SplitFirst(time, rest);
    assert Split(row)[0] == date && Split(row)[1] == time;
    StripClean(date);
    StripClean(time);
    EventTokensAt(row, 0);
    EventTokensAt(row, 1);
  }

  /** The report's date and time texts hold neither a comma nor an apostrophe at an end. */
  lemma DateTextClean(t: DateTime)
    requires Valid(t)
    ensures Comma !in FormatDate(t) && Comma !in FormatTime(t)
    ensures FormatDate(t)[0] != Quote && FormatDate(t)[9] != Quote
    ensures FormatTime(t)[0] != Quote && FormatTime(t)[7] != Quote
  {
    var s := Format(t);
    FormatShape(t);
    FollowsAt(s, Layout);
    assert forall i :: 0 <= i < |s| ==> s[i] == '-' || s[i] == ' ' || s[i] == ':' || IsDigit(s[i]);
  }

  /** A text that neither starts nor ends with an apostrophe is its own `strip("'")`. */
  lemma StripClean(s: string)
    requires s != [] && s[0] != Quote && s[|s| - 1] != Quote
    ensures Strip(s) == s
  {
  }

  /**
   * A row with no comma (so no time token), or with an empty date or time
   * segment, raises instead of producing a record.
   */
  lemma EventNeedsTimestamp(id: Option<string>, columns: seq<string>, row: string)
    requires StandardColumns(columns)
    requires |Split(row)| < 2 || Strip(Split(row)[0]) == [] || Strip(Split(row)[1]) == []
    ensures EventRecord(id, columns, row).Err?
    ensures EventRecord(id, columns, row).error.TimestampError?
  {
    var tokens := EventTokens(row);
    var base := EventBase(id, columns, row);
    EventBaseStamp(id, columns, row);
    EventTokensAt(row, 0);
    EventTokensAt(row, 1);
    StampNeedsDateAndTime(base);
  }
}
