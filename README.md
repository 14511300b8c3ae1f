# Ecobee runtime-report parser, modelled in Dafny

This project models the parsing stage of `homethermostatetl`, the `EcobeeParser`
class in `homethermostatetl/ecobee.py`. The class takes one runtime-report payload
from the thermostat vendor's API and turns it into two lists of flat records:

- **events**: one record per row of every `reportList` block. The row text is
  split on commas, the tokens are zipped against `["date", "time"]` plus the
  payload's `columns`, the thermostat identifier is added, and "date" and
  "time" are merged into one parsed timestamp.
- **sensor readings**: one record per (data row, sensor) pair of the first
  `sensorList` block. Each record is a copy of the sensor's descriptor, with the
  row's thermostat id and timestamp and the row's value for that sensor.

Modules, one concept each:

- `Wrappers`: `Option` and `Result`.
- `Timestamp`: `strptime(s, "%Y-%m-%d %H:%M:%S")` as `Parse`, and `str()` of a
  `datetime` as `Format`. It proves that they are inverse to each other.
- `Tokenizer`: the row tokenizers of lines 26-30 (events) and 50-54 (sensors).
  It proves what each token is in terms of the row's comma-separated segments.
- `Report`: the payload and record types, the exceptions the parser lets escape,
  `dict(zip(..))` as `ZipMap`, and the f-string handed to `strptime`.
- `Gather`: the "append per step, first exception ends the call" shape that
  all the loops share.
- `Manifest`: the sensor manifest `{x["sensorId"]: x for x in sensors}`, kept as
  an insertion-ordered list of entries.
- `Events` and `Sensors`: the two extraction routines as specification
  functions, with lemmas that say what the extracted records are.
- `Ecobee`: the class `EcobeeParser`. Its two attributes are fields that
  `Process` replaces. Its static routines are the loops of the source, each
  proved to compute the matching specification function.

A Python exception is an `Err` of `Report.Error`:

- `TimestampError`: `strptime`'s ValueError.
- `KeyError`: a missing dictionary key.
- `TypeError`: iterating or zipping a field that is absent.

A payload key that is absent is a `None` field. The errors are raised in the
order the source meets them.

Behaviour of the code worth knowing:

- An absent or empty `sensorList` makes `_process_sensors` return `None`, not
  an empty list, because the function falls off its end. `Sensors.Sensors`
  returns `Ok(None)` exactly then.
- A row with fewer tokens than columns is not rejected as such. `zip` stops at
  the shorter list. Only a missing date or time token makes the row raise,
  through `strptime` (`Events.EventNeedsTimestamp`).
- The sensor routine stops after the first `sensorList` block, because the
  `return` is inside the loop. The model keeps this as written
  (`Sensors.FirstBlockOnly`).
- The two routines do not run independently. Events run first, and an
  exception there skips the sensors (`Ecobee.EcobeeParser.Process`).

## Model

| member | source | states |
|---|---|---|
| Timestamp.DaysInMonth | homethermostatetl/ecobee.py:33-35 | a month has 28 to 31 days, and 29 exactly for February of a leap year, as `strptime` checks the day against |
| Timestamp.Parse | homethermostatetl/ecobee.py:33-35 | a text that parses names a valid instant (year 1-9999, real month length, 24 h, 60 min, 60 s) |
| Timestamp.ParseFormat | homethermostatetl/ecobee.py:33-35 | every valid instant, printed as "YYYY-MM-DD HH:MM:SS", parses back to itself |
| Timestamp.ParseInverse | homethermostatetl/ecobee.py:33-35 | every text that parses is exactly the printed form of the instant it parses to, so the parse accepts one text per instant |
| Timestamp.FormatShape | homethermostatetl/ecobee.py:18 | the printed form of an instant follows the layout "DDDD-DD-DD DD:DD:DD" |
| Timestamp.FormatSplit | homethermostatetl/ecobee.py:34 | the printed form is the date part, a space, then the time part, as the f-string joins them |
| Timestamp.RejectsNone | homethermostatetl/ecobee.py:34-35 | a text with "None" in place of the date or of the time never parses |
| Timestamp.UnpackPack | homethermostatetl/ecobee.py:33-35 | the six fields packed as the number yyyymmddHHMMSS unpack to the same six fields |
| Timestamp.ReadingPrint | homethermostatetl/ecobee.py:33-35 | reading the digits of a number printed into a layout gives the number back |
| Timestamp.PrintReading | homethermostatetl/ecobee.py:33-35 | printing the number read from a text that follows a layout gives the text back |
| Timestamp.PrintFollows | homethermostatetl/ecobee.py:18 | a printed number follows its layout |
| Tokenizer.Split | homethermostatetl/ecobee.py:28 | `split(",")` yields one more piece than there are commas |
| Tokenizer.SplitPieces | homethermostatetl/ecobee.py:28 | no piece of a split contains a comma |
| Tokenizer.JoinSplit | homethermostatetl/ecobee.py:21 | joining the pieces of a split with commas gives the text back |
| Tokenizer.SplitJoin | homethermostatetl/ecobee.py:21 | splitting comma-free pieces joined with commas gives the pieces back |
| Tokenizer.RequoteSplit | homethermostatetl/ecobee.py:26-28 | after commas are re-quoted and the row is wrapped, the split yields each original segment wrapped in apostrophes, so re-quoting adds no pieces |
| Tokenizer.TrimLeftSpec | homethermostatetl/ecobee.py:29 | left trimming removes exactly the leading apostrophes |
| Tokenizer.TrimRightSpec | homethermostatetl/ecobee.py:29 | right trimming removes exactly the trailing apostrophes |
| Tokenizer.StripWrap | homethermostatetl/ecobee.py:27-29 | `strip("'")` of a wrapped segment equals `strip("'")` of the segment itself |
| Tokenizer.RemoveQuotes | homethermostatetl/ecobee.py:53 | `replace("'", "")` leaves no apostrophe and removes exactly as many characters as there were apostrophes |
| Tokenizer.RemoveQuotesConcat | homethermostatetl/ecobee.py:53 | removing apostrophes distributes over concatenation |
| Tokenizer.RemoveQuotesWrap | homethermostatetl/ecobee.py:51-53 | removing apostrophes from a wrapped segment gives the same as from the segment |
| Tokenizer.EventTokensAt | homethermostatetl/ecobee.py:26-30 | an event row gives one token per comma-separated segment, and token i is segment i with apostrophes stripped at both ends, `None` if that leaves nothing |
| Tokenizer.SensorTokensAt | homethermostatetl/ecobee.py:50-54 | a sensor row gives one token per comma-separated segment, and token i is segment i with every apostrophe removed, `None` if that leaves nothing |
| Report.Paired | homethermostatetl/ecobee.py:32 | `zip` pairs as many items as the shorter of the two lists holds |
| Report.LastIndex | homethermostatetl/ecobee.py:32 | a position holding the column name with no later position holding it, or -1 exactly when the name is absent |
| Report.ZipMapKeys | homethermostatetl/ecobee.py:32 | `dict(zip(columns, tokens))` has exactly the column names that were paired with a token |
| Report.ZipMapAt | homethermostatetl/ecobee.py:32 | a column name maps to the token at its last paired position, so a repeated name keeps the later token |
| Report.StampNeedsDateAndTime | homethermostatetl/ecobee.py:33-35 | a row whose "date" or "time" is missing or `None` gives a text that never parses |
| Manifest.Ids | homethermostatetl/ecobee.py:48 | the manifest's keys, one per entry, in entry order |
| Manifest.InsertEntries | homethermostatetl/ecobee.py:48 | storing a descriptor under an id already present replaces that entry in place and leaves every other entry where it was; a new id goes at the end |
| Manifest.InsertIds | homethermostatetl/ecobee.py:48 | storing a descriptor keeps the keys distinct, and adds its id at the end only when the id is new |
| Manifest.BuildManifestOk | homethermostatetl/ecobee.py:48 | the comprehension succeeds exactly when every descriptor has a "sensorId", and otherwise raises KeyError('sensorId') |
| Manifest.BuildManifestStops | homethermostatetl/ecobee.py:48 | the first descriptor without a "sensorId" ends the comprehension, and later descriptors do not change the outcome |
| Manifest.FirstOccurrencesSpec | homethermostatetl/ecobee.py:48 | keeping each id at its first occurrence keeps exactly the ids of the input, each once |
| Manifest.ManifestOrder | homethermostatetl/ecobee.py:48 | the manifest lists each sensor id once, in the order of its first appearance among the descriptors |
| Manifest.ManifestIds | homethermostatetl/ecobee.py:48 | the manifest's ids are distinct and are exactly the ids of the descriptors |
| Manifest.ManifestLastWins | homethermostatetl/ecobee.py:48 | the entry for an id holds the last descriptor carrying that id |
| Events.EventColumns | homethermostatetl/ecobee.py:20-21 | the column list is "date", "time", then the pieces of `columns` split on commas (one more piece than commas), and a missing `columns` gives one empty name |
| Events.EventRecord | homethermostatetl/ecobee.py:26-36 | a record that is produced has no "time" key and a parsed timestamp under "date" |
| Events.Events | homethermostatetl/ecobee.py:19-22 | an absent or empty `reportList` gives no records and no error |
| Events.EventsOfRowsOk | homethermostatetl/ecobee.py:25-37 | a block's rows give one record per row, in row order, exactly when every row produces a record |
| Events.EventsOfRowsErr | homethermostatetl/ecobee.py:25-37 | when a block fails, it fails with the exception of the first row that raises, and every earlier row produced a record |
| Events.EventsOfBlocksOk | homethermostatetl/ecobee.py:22-37 | the events routine succeeds exactly when every block has a `rowList` and all its rows produce records |
| Events.EventsInPayloadOrder | homethermostatetl/ecobee.py:22-37 | row j of block b produces the record found right after the records of the blocks before b, at offset j |
| Events.BlockAt | homethermostatetl/ecobee.py:22-37 | the records of block b follow the records of all earlier blocks |
| Events.RowAt | homethermostatetl/ecobee.py:25-37 | record j of a block is the record produced by row j |
| Events.EventsCount | homethermostatetl/ecobee.py:22-37 | on success there are exactly as many records as rows in all blocks together |
| Events.EventBaseStamp | homethermostatetl/ecobee.py:31-32 | with standard columns, the zipped row holds "date" and "time" from the first two tokens, and has no "time" when there are fewer than two tokens |
| Events.EventStampTokens | homethermostatetl/ecobee.py:33-35 | with standard columns, the text handed to `strptime` is the first token, a space, and the second token |
| Events.EventRecordKeys | homethermostatetl/ecobee.py:31-36 | an event record's keys are "thermostatIdentifier", "date" and every column paired with a token, minus "time" |
| Events.EventRecordDate | homethermostatetl/ecobee.py:33-35 | the record's timestamp prints back as exactly the date token, a space, and the time token of the row |
| Events.EventRecordThermostat | homethermostatetl/ecobee.py:31-32 | when no column is named "thermostatIdentifier", the record carries the block's identifier |
| Events.EventRecordColumn | homethermostatetl/ecobee.py:31-36 | every column other than "date" and "time" holds the token at its last paired position, whatever the rest of the column list is |
| Events.EventTimestampRoundTrip | homethermostatetl/ecobee.py:26-36 | with standard columns, a row that starts with a printed date, a comma and a printed time produces a record whose "date" is that instant |
| Events.StampTokens | homethermostatetl/ecobee.py:26-30 | such a row's first two tokens are exactly the printed date and time |
| Events.DateTextClean | homethermostatetl/ecobee.py:26-30 | printed dates and times hold no comma and neither start nor end with an apostrophe |
| Events.EventNeedsTimestamp | homethermostatetl/ecobee.py:29-35 | with standard columns, a row without a comma, or with an empty date or time segment, raises the `strptime` error |
| Sensors.SensorRow | homethermostatetl/ecobee.py:50-58 | a data row that is produced has no "time" key and a parsed timestamp under "date" |
| Sensors.Sensors | homethermostatetl/ecobee.py:44-45 | the routine returns `None` exactly when `sensorList` is absent or empty |
| Sensors.FirstBlockOnly | homethermostatetl/ecobee.py:45-66 | two payloads whose first `sensorList` blocks agree give the same result, so later blocks are never read |
| Sensors.BlockErrors | homethermostatetl/ecobee.py:46-49 | the errors come in the source's order: a missing `sensors`, then a descriptor without "sensorId", then a missing `data` |
| Sensors.ColumnsNeededOnlyForRows | homethermostatetl/ecobee.py:49-55 | a block without `columns` gives no records when it has no data rows, and raises TypeError at the first row otherwise |
| Sensors.SensorRecordOk | homethermostatetl/ecobee.py:63 | a sensor record is produced exactly when the row has a value under the sensor's id, and otherwise the routine raises KeyError for that id |
| Sensors.SensorRecordContents | homethermostatetl/ecobee.py:61-63 | the record holds "value", the row's entry for the sensor, the row's thermostat id and date where the row has them, and every other descriptor field with the descriptor's value; its keys are exactly those |
| Sensors.FanOutOk | homethermostatetl/ecobee.py:59-64 | a row fans out to one record per manifest entry, in manifest order, exactly when every entry produces a record |
| Sensors.SensorRowStamp | homethermostatetl/ecobee.py:55-57 | with standard columns, the row carries the block's identifier, and its timestamp prints back as the date token, a space, and the time token |
| Sensors.SensorRowKeys | homethermostatetl/ecobee.py:55-58 | a processed data row's keys are "thermostatIdentifier", "date" and every column paired with a token, never "time", and it carries the block's identifier for any column list |
| Sensors.SensorMissingFromRow | homethermostatetl/ecobee.py:55-63 | a sensor id that is "time", or that no paired column names and is neither "thermostatIdentifier" nor "date", makes the lookup of line 63 raise KeyError for that id |
| Sensors.SensorRowColumn | homethermostatetl/ecobee.py:55-58 | every column other than "date", "time" and "thermostatIdentifier" holds the token at its last paired position, whatever the rest of the column list is |
| Sensors.SensorRowsCount | homethermostatetl/ecobee.py:49-65 | the block succeeds exactly when every row does, and then yields rows times sensors records |
| Sensors.RowRecordsCount | homethermostatetl/ecobee.py:59-64 | one data row yields as many records as the manifest has entries |
| Sensors.SensorRowsOrder | homethermostatetl/ecobee.py:49-65 | the record for sensor i of row j stands at position j * (number of sensors) + i |
| Sensors.RowRecordAt | homethermostatetl/ecobee.py:59-64 | record i of a row is the sensor record of manifest entry i |
| Sensors.FlatFirstErr | homethermostatetl/ecobee.py:49-65 | a first row that raises ends the block with its error |
| Ecobee.EcobeeParser.Empty | homethermostatetl/ecobee.py:5-6 | an object that has processed nothing holds the class defaults: no events and an empty sensor list |
| Ecobee.EcobeeParser.New | homethermostatetl/ecobee.py:8-10 | without a payload the new object keeps the defaults; with one it is processed, and it is returned exactly when processing raises nothing |
| Ecobee.EcobeeParser.Process | homethermostatetl/ecobee.py:12-14 | each selected attribute is replaced by its routine's result and an unselected one is kept; an events exception leaves both attributes as they were, and a sensors exception keeps the new events |
| Ecobee.EcobeeParser.ProcessEvents | homethermostatetl/ecobee.py:16-38 | the nested loop returns exactly what `Events.Events` specifies |
| Ecobee.EcobeeParser.ProcessRows | homethermostatetl/ecobee.py:25-37 | the loop over one block's rows returns exactly what `Events.EventsOfRows` specifies |
| Ecobee.EcobeeParser.ProcessSensors | homethermostatetl/ecobee.py:40-66 | the loops return exactly what `Sensors.Sensors` specifies |
| Ecobee.EcobeeParser.BuildSensors | homethermostatetl/ecobee.py:48 | inserting descriptors one at a time builds exactly `Manifest.BuildManifest` |
| Ecobee.EcobeeParser.FanOutRow | homethermostatetl/ecobee.py:59-64 | the loop over the manifest returns exactly what `Sensors.FanOut` specifies |

## Left out

- The rest of the repository is not part of this model. That covers the web
  routes, the vendor API client and its token refresh, and database persistence.
  They only supply payloads and store records.
- Only the strict timestamp layout is modelled. `Parse` accepts exactly
  "YYYY-MM-DD HH:MM:SS" with full-width fields and one space. `strptime` also
  accepts month, day, hour, minute and second without leading zeros (for
  example "2020-1-5 3:4:5"), and it matches the format's space against any run
  of whitespace. So the event row `2020-01-05 ,03:04:05` gives the text
  "2020-01-05  03:04:05", which Python parses and `Parse` rejects. The year
  must have four digits in both.
- A payload key that is present with a JSON null is not told apart from an
  absent key. Both are `None`. So `columns: null` is not modelled as the
  AttributeError it would raise. A null `reportList` or `sensorList` behaves
  here like an absent one, while Python would raise a TypeError when iterating.
- Python dicts keep key order; records are maps here, so the order of keys
  inside one record is not modelled. The order of records and of manifest
  entries is modelled.
- The class-level defaults are shared between all instances in Python. This
  aliasing is not modelled: each object gets its own default values.
- `fields.copy()` and the in-place `update`/`del` on the per-row dicts are
  modelled on immutable map values. So the model cannot show aliasing, but the
  input descriptors are never changed by construction.
- Values are strings, `None` or timestamps. No numeric conversion happens in the
  source either, and other JSON types of descriptor fields are not modelled.
- Events.EventRecordDate, Events.EventBaseStamp, Events.EventNeedsTimestamp,
  Events.EventStampTokens, Events.EventTimestampRoundTrip: stated only for
  column lists that start with "date" and "time" and do not repeat them. The
  events routine builds such a list for every payload whose `columns` names
  neither "date" nor "time". For other payloads the zip lets a later token
  override the date or time, and only `Events.EventRecord`'s own ensures
  apply.
- Sensors.SensorRowStamp: stated only for blocks whose `columns` start with
  "date" and "time" and do not repeat them. The vendor's sensor columns have
  that form, but the source does not check it.
- Events.EventRecordThermostat: stated only when no column is named
  "thermostatIdentifier". Otherwise the zipped token overrides the block's id,
  which `Events.EventRecordKeys` and `Report.ZipMapAt` cover.
- The exact text of Python's exception messages is not modelled, only the
  exception kind and the missing key.
