/**
 * The sensor manifest of one `sensorList` block (homethermostatetl/ecobee.py:48):
 * the dict `{x["sensorId"]: x for x in sensors}`. A Python dict keeps its keys
 * in the order they were first inserted, and a later descriptor with the same
 * id replaces the earlier one in place, so the manifest is a sequence of
 * (id, descriptor) entries with distinct ids.
 */
module Manifest {

  import opened Wrappers
  import opened Report

  const SensorIdKey: string := "sensorId"

  /** One manifest entry: the sensor id and the descriptor stored under it. */
  datatype Sensor = Sensor(id: Value, fields: Descriptor)

  /** The ids of the entries, in order. */
  function Ids(m: seq<Sensor>): (r: seq<Value>)
    ensures |r| == |m|
    ensures forall i {:trigger r[i]} :: 0 <= i < |m| ==> r[i] == m[i].id
  {
    if m == [] then [] else [m[0].id] + Ids(m[1..])
  }

  /** No id occurs twice. */
  predicate Distinct(xs: seq<Value>) {
    forall i, j :: 0 <= i < j < |xs| ==> xs[i] != xs[j]
  }

  /** `d[key] = value`: replace the entry with that id where it stands, or append a new one. */
  function Insert(m: seq<Sensor>, s: Sensor): seq<Sensor> {
    if m == [] then [s]
    else if m[0].id == s.id then [s] + m[1..]
    else [m[0]] + Insert(m[1..], s)
  }

  /** The ids of the entries after the first. */
  lemma IdsTail(m: seq<Sensor>)
    requires m != []
    ensures Ids(m) == [m[0].id] + Ids(m[1..])
  {
  }

  /** The ids after the first entry are distinct when all are. */
  lemma DistinctTail(m: seq<Sensor>)
    requires m != [] && Distinct(Ids(m))
    ensures Distinct(Ids(m[1..]))
    ensures m[0].id !in Ids(m[1..])
  {
    IdsTail(m);
    DistinctCons(m[0].id, Ids(m[1..]));
  }

  /**
   * An insertion into a manifest with distinct ids replaces the entry that
   * has the same id and leaves every other entry where it was; an id not
   * yet present goes at the end.
   */
  lemma {:induction false} InsertEntries(m: seq<Sensor>, s: Sensor)
    requires Distinct(Ids(m))
    ensures |Insert(m, s)| == if s.id in Ids(m) then |m| else |m| + 1
    ensures forall i :: 0 <= i < |m| ==> Insert(m, s)[i] == (if m[i].id == s.id then s else m[i])
    ensures s.id !in Ids(m) ==> Insert(m, s)[|m|] == s
  {
    if m != [] {
      var rest := m[1..];
      DistinctTail(m);
      IdsTail(m);
      if m[0].id == s.id {
        forall i | 1 <= i < |m| ensures m[i].id != s.id {
          assert Ids(rest)[i - 1] == m[i].id;
        }
      } else {
        InsertEntries(rest, s);
        var n := Insert(m, s);
        assert n == [m[0]] + Insert(rest, s);
        forall i | 1 <= i < |m| ensures n[i] == (if m[i].id == s.id then s else m[i]) {
          assert rest[i - 1] == m[i];
          assert n[i] == Insert(rest, s)[i - 1];
        }
      }
    }
  }

  /** The ids an insertion leaves: unchanged when present, one more at the end otherwise; still distinct. */
  lemma InsertIds(m: seq<Sensor>, s: Sensor)
    requires Distinct(Ids(m))
    ensures Ids(Insert(m, s)) == if s.id in Ids(m) then Ids(m) else Ids(m) + [s.id]
    ensures Distinct(Ids(Insert(m, s)))
  {
    InsertEntries(m, s);
    var n := Insert(m, s);
    if s.id in Ids(m) {
      forall i | 0 <= i < |n| ensures Ids(n)[i] == Ids(m)[i] {
        assert n[i].id == m[i].id;
      }
      assert Ids(n) == Ids(m);
    } else {
      var grown := Ids(m) + [s.id];
      forall i | 0 <= i < |n| ensures Ids(n)[i] == grown[i] {
        if i < |m| {
          assert n[i].id == m[i].id;
        } else {
          assert i == |m| && n[i] == s;
        }
      }
      assert Ids(n) == grown;
      DistinctSnoc(Ids(m), s.id);
    }
  }

  /** A value appended to distinct values it is not among keeps them distinct. */
  lemma DistinctSnoc(xs: seq<Value>, x: Value)
    requires Distinct(xs) && x !in xs
    ensures Distinct(xs + [x])
  {
    var ys := xs + [x];
    forall i, j | 0 <= i < j < |ys| ensures ys[i] != ys[j] {
      assert ys[i] == xs[i];
    }
  }

  /** A value put in front of distinct values it is not among keeps them distinct. */
  lemma DistinctCons(x: Value, xs: seq<Value>)
    ensures Distinct([x] + xs) <==> x !in xs && Distinct(xs)
  {
    var ys := [x] + xs;
    if Distinct(ys) {
      forall i | 0 <= i < |xs| ensures xs[i] != x {
        assert ys[i + 1] == xs[i] && ys[0] == x;
      }
      forall i, j | 0 <= i < j < |xs| ensures xs[i] != xs[j] {
        assert ys[i + 1] == xs[i] && ys[j + 1] == xs[j];
      }
    }
    if x !in xs && Distinct(xs) {
      forall i, j | 0 <= i < j < |ys| ensures ys[i] != ys[j] {
        assert ys[j] == xs[j - 1];
        if i > 0 {
          assert ys[i] == xs[i - 1];
        }
      }
    }
  }

  /** Every descriptor carries a "sensorId". */
  predicate AllIdentified(descs: seq<Descriptor>) {
    forall j :: 0 <= j < |descs| ==> SensorIdKey in descs[j]
  }

  /**
   * The manifest comprehension: descriptors are inserted in order, keyed by
   * their "sensorId"; one without it raises KeyError('sensorId').
   */
  function BuildManifest(descs: seq<Descriptor>): Result<seq<Sensor>, Error> {
    if descs == [] then Ok([])
    else
      match BuildManifest(descs[..|descs| - 1])
      case Err(e) => Err(e)
      case Ok(m) =>
        var d := descs[|descs| - 1];
        if SensorIdKey !in d then Err(KeyError(Str(SensorIdKey)))
        else Ok(Insert(m, Sensor(d[SensorIdKey], d)))
  }

  /** The manifest builds exactly when every descriptor has a "sensorId"; otherwise it raises KeyError('sensorId'). */
  lemma {:induction false} BuildManifestOk(descs: seq<Descriptor>)
    ensures BuildManifest(descs).Ok? <==> AllIdentified(descs)
    ensures BuildManifest(descs).Err? ==> BuildManifest(descs).error == KeyError(Str(SensorIdKey))
  {
    if descs != [] {
      var front := descs[..|descs| - 1];
      BuildManifestOk(front);
      assert forall j :: 0 <= j < |front| ==> front[j] == descs[j];
    }
  }

  /** The first descriptor without a "sensorId" ends the comprehension: later descriptors are never looked at. */
  lemma {:induction false} BuildManifestStops(descs: seq<Descriptor>, n: nat)
    requires n <= |descs| && BuildManifest(descs[..n]).Err?
    ensures BuildManifest(descs) == BuildManifest(descs[..n])
  {
    if n < |descs| {
      assert descs[..|descs| - 1][..n] == descs[..n];
      BuildManifestStops(descs[..|descs| - 1], n);
    } else {
      assert descs[..n] == descs;
    }
  }

  /** The ids of the descriptors, in order. */
  function DescriptorIds(descs: seq<Descriptor>): (r: seq<Value>)
    requires AllIdentified(descs)
    ensures |r| == |descs|
  {
    if descs == [] then []
    else DescriptorIds(descs[..|descs| - 1]) + [descs[|descs| - 1][SensorIdKey]]
  }

  /** Each value once, at the place of its first occurrence. */
  function FirstOccurrences(xs: seq<Value>): seq<Value> {
    if xs == [] then []
    else
      var seen := FirstOccurrences(xs[..|xs| - 1]);
      if xs[|xs| - 1] in seen then seen else seen + [xs[|xs| - 1]]
  }

  /** `FirstOccurrences` keeps exactly the values of its input, each once. */
  lemma {:induction false} FirstOccurrencesSpec(xs: seq<Value>)
    ensures Distinct(FirstOccurrences(xs))
    ensures forall v :: v in FirstOccurrences(xs) <==> v in xs
  {
    if xs != [] {
      var front := xs[..|xs| - 1];
      FirstOccurrencesSpec(front);
      assert xs == front + [xs[|xs| - 1]];
    }
  }

  /**
   * Insertion order: the manifest lists each sensor id once, in the order of
   * its first appearance among the descriptors.
   */
  lemma {:induction false} ManifestOrder(descs: seq<Descriptor>)
    requires BuildManifest(descs).Ok?
    ensures AllIdentified(descs)
    ensures Ids(BuildManifest(descs).value) == FirstOccurrences(DescriptorIds(descs))
  {
    BuildManifestOk(descs);
    if descs != [] {
      var front := descs[..|descs| - 1];
      var d := descs[|descs| - 1];
      assert AllIdentified(front) by {
        assert forall j :: 0 <= j < |front| ==> front[j] == descs[j];
      }
      ManifestOrder(front);
      FirstOccurrencesSpec(DescriptorIds(front));
      InsertIds(BuildManifest(front).value, Sensor(d[SensorIdKey], d));
      assert DescriptorIds(descs)[..|descs| - 1] == DescriptorIds(front);
    }
  }

  /** The manifest never holds the same sensor id twice, and holds every id some descriptor has. */
  lemma ManifestIds(descs: seq<Descriptor>)
    requires BuildManifest(descs).Ok?
    ensures AllIdentified(descs)
    ensures Distinct(Ids(BuildManifest(descs).value))
    ensures forall v :: v in Ids(BuildManifest(descs).value) <==> v in DescriptorIds(descs)
  {
    ManifestOrder(descs);
    FirstOccurrencesSpec(DescriptorIds(descs));
  }

  /** The last descriptor carrying sensor id `v`, if any. */
  function LastWith(descs: seq<Descriptor>, v: Value): Option<Descriptor> {
    if descs == [] then None
    else
      var d := descs[|descs| - 1];
      if SensorIdKey in d && d[SensorIdKey] == v then Some(d)
      else LastWith(descs[..|descs| - 1], v)
  }

  /**
   * The last descriptor wins: the entry for a sensor id holds the last
   * descriptor that carries that id, and its own "sensorId" is that id.
   */
  lemma {:induction false} ManifestLastWins(descs: seq<Descriptor>)
    requires BuildManifest(descs).Ok?
    ensures var m := BuildManifest(descs).value;
            forall i :: 0 <= i < |m| ==>
              LastWith(descs, m[i].id) == Some(m[i].fields)
              && SensorIdKey in m[i].fields && m[i].fields[SensorIdKey] == m[i].id
  {
    if descs != [] {
      var front := descs[..|descs| - 1];
      var d := descs[|descs| - 1];
      var prev := BuildManifest(front).value;
      var s := Sensor(d[SensorIdKey], d);
      ManifestLastWins(front);
      ManifestIds(front);
      InsertEntries(prev, s);
      var m := BuildManifest(descs).value;
      assert m == Insert(prev, s);
      forall i | 0 <= i < |m|
        ensures LastWith(descs, m[i].id) == Some(m[i].fields)
        ensures SensorIdKey in m[i].fields && m[i].fields[SensorIdKey] == m[i].id
      {
        if i < |prev| && prev[i].id != s.id {
          assert m[i] == prev[i];
          assert LastWith(descs, m[i].id) == LastWith(front, prev[i].id);
        } else {
          assert m[i] == s;
        }
      }
    }
  }
}
