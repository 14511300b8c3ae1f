/**
 * The runtime-report payload the parser reads and the flat records it
 * produces (homethermostatetl/ecobee.py), with the dictionary operations the
 * parser performs on them.
 */
module Report {

  import opened Wrappers
  import opened Timestamp

  /** A `datetime` value: a valid instant. */
  type Instant = t: DateTime | Valid(t) witness DateTime(1, 1, 1, 0, 0, 0)

  /** A record value: a string, Python's `None`, or a parsed `datetime`. */
  datatype Value = Str(text: string) | Null | Stamp(at: Instant)

  /** A flat record, as the parser's dicts; key order is not modelled. */
  type Record = map<string, Value>

  /** One sensor descriptor of a block's `sensors` manifest. */
  type Descriptor = map<string, Value>

  /** The exceptions the parser lets escape. */
  datatype Error =
    | TimestampError(text: string)  // ValueError from `strptime`
    | KeyError(key: Value)          // a missing dictionary key
    | TypeError(what: string)       // iterating or zipping a missing (None) field

  /** One entry of `reportList`. A field is `None` when its key is absent. */
  datatype ReportBlock = ReportBlock(thermostatIdentifier: Option<string>, rowList: Option<seq<string>>)

  /** One entry of `sensorList`. A field is `None` when its key is absent. */
  datatype SensorBlock = SensorBlock(
    thermostatIdentifier: Option<string>,
    columns: Option<seq<string>>,
    sensors: Option<seq<Descriptor>>,
    data: Option<seq<string>>)

  /** The runtime-report payload. A field is `None` when its key is absent. */
  datatype Payload = Payload(
    columns: Option<string>,
    reportList: Option<seq<ReportBlock>>,
    sensorList: Option<seq<SensorBlock>>)

  const ThermostatKey: string := "thermostatIdentifier"
  const DateKey: string := "date"
  const TimeKey: string := "time"

  /** A token or an identifier as a record value: `None` stays `None`. */
  function FromOption(x: Option<string>): (v: Value)
    ensures v.Null? <==> x.None?
    ensures x.Some? ==> v == Str(x.value)
  {
    match x
    case Some(s) => Str(s)
    case None => Null
  }

  /** The number of pairs `zip(keys, tokens)` yields: the shorter length. */
  function Paired(keys: seq<string>, tokens: seq<Option<string>>): (n: nat)
    ensures n <= |keys| && n <= |tokens|
    ensures n == |keys| || n == |tokens|
  {
    if |keys| < |tokens| then |keys| else |tokens|
  }

  /** The position of the last occurrence of `k` in `keys`, or -1 when there is none. */
  function LastIndex(keys: seq<string>, k: string): (i: int)
    ensures -1 <= i < |keys|
    ensures i >= 0 ==> keys[i] == k
    ensures i < 0 <==> k !in keys
    ensures i >= 0 ==> forall j :: i < j < |keys| ==> keys[j] != k
  {
    if keys == [] then -1
    else if keys[|keys| - 1] == k then |keys| - 1
    else LastIndex(keys[..|keys| - 1], k)
  }

  /**
   * `dict(zip(keys, tokens))`: pairs are taken up to the shorter of the two
   * sequences, and when a key repeats the later pair wins, so each key holds
   * the token at its last paired position (`ZipMapKeys`, `ZipMapAt`).
   */
  function ZipMap(keys: seq<string>, tokens: seq<Option<string>>): Record {
    var paired := keys[..Paired(keys, tokens)];
    map k | k in paired :: FromOption(tokens[LastIndex(paired, k)])
  }

  /** The zipped dict has exactly the keys that were paired with a token. */
  lemma ZipMapKeys(keys: seq<string>, tokens: seq<Option<string>>)
    ensures forall k :: k in ZipMap(keys, tokens) <==> exists i :: 0 <= i < |keys| && i < |tokens| && keys[i] == k
  {
    var paired := keys[..Paired(keys, tokens)];
    forall k | k in paired ensures exists i :: 0 <= i < |keys| && i < |tokens| && keys[i] == k {
      var i :| 0 <= i < |paired| && paired[i] == k;
      assert keys[i] == k;
    }
    forall k | exists i :: 0 <= i < |keys| && i < |tokens| && keys[i] == k ensures k in paired {
      var i :| 0 <= i < |keys| && i < |tokens| && keys[i] == k;
      assert paired[i] == k;
    }
  }

  /** A key holds the token paired with its last occurrence. */
  lemma ZipMapAt(keys: seq<string>, tokens: seq<Option<string>>, i: nat)
    requires i < |keys| && i < |tokens| && LastAt(keys, |tokens|, i)
    ensures keys[i] in ZipMap(keys, tokens) && ZipMap(keys, tokens)[keys[i]] == FromOption(tokens[i])
  {
    var paired := keys[..Paired(keys, tokens)];
    assert paired[i] == keys[i];
    LastIndexAt(paired, i);
  }

  /** The last occurrence of the key at position `i` is `i` when no later position repeats it. */
  lemma {:induction false} LastIndexAt(keys: seq<string>, i: nat)
    requires i < |keys| && forall j :: i < j < |keys| ==> keys[j] != keys[i]
    ensures LastIndex(keys, keys[i]) == i
  {
    if i < |keys| - 1 {
      var front := keys[..|keys| - 1];
      assert front[i] == keys[i];
      LastIndexAt(front, i);
    }
  }

  /** Position `i` holds the last occurrence of its key among the first `n` keys. */
  predicate LastAt(keys: seq<string>, n: int, i: int)
    requires 0 <= i < |keys|
  {
    forall j :: i < j < |keys| && j < n ==> keys[j] != keys[i]
  }

  /** The columns begin with "date" and "time" and do not name either again. */
  predicate StandardColumns(columns: seq<string>) {
    && |columns| >= 2 && columns[0] == DateKey && columns[1] == TimeKey
    && forall i :: 2 <= i < |columns| ==> columns[i] != DateKey && columns[i] != TimeKey
  }

  /** The text Python prints for a token: the token itself, or "None". */
  function TokenText(t: Option<string>): string {
    match t
    case Some(s) => s
    case None => "None"
  }

  /** How an f-string prints `record.get(key)`: a missing key or a `None` value gives "None". */
  function Show(r: Record, key: string): string {
    if key !in r then "None"
    else match r[key]
      case Str(s) => s
      case Null => "None"
      case Stamp(t) => Format(t)
  }

  /** The text handed to `strptime`: f"{row.get('date')} {row.get('time')}". */
  function StampText(r: Record): string {
    Show(r, DateKey) + " " + Show(r, TimeKey)
  }

  /**
   * A row whose date or time key is missing, or holds `None`, yields a text
   * that never parses.
   */
  lemma {:induction false} StampNeedsDateAndTime(r: Record)
    requires DateKey !in r || r[DateKey] == Null || TimeKey !in r || r[TimeKey] == Null
    ensures Parse(StampText(r)).None?
  {
    if DateKey !in r || r[DateKey] == Null {
      assert Show(r, DateKey) == "None";
      RejectsNone(Show(r, TimeKey));
    } else {
      assert Show(r, TimeKey) == "None";
      RejectsNone(Show(r, DateKey));
    }
  }
}
