/**
 * The "Temperatures" field of the status embed: one line per sensor reading,
 * added only when there is at least one reading.
 */
module Temperatures {
  import opened Wrappers
  import opened Text

  /**
   * One reading of a sensor. `current` is the text Python prints for the
   * reading's float value.
   */
  datatype Reading = Reading(entryLabel: string, current: string)

  /** One item of the `sensors_temperatures()` dictionary, in its iteration order. */
  datatype Sensor = Sensor(name: string, entries: seq<Reading>)

  const Degrees: string := "\U{B0}C"  // °C

  /** `f"{entry.label or name}: {entry.current}°C\n"` */
  function Line(name: string, e: Reading): (r: string)
    ensures |r| >= |Degrees| + 1 && r[|r| - 3..] == Degrees + "\n"
  {
    (if e.entryLabel != "" then e.entryLabel else name) + ": " + e.current + Degrees + "\n"
  }

  /** The text the inner loop appends for the readings `es` of sensor `name`. */
  function SensorText(name: string, es: seq<Reading>): (r: string)
    ensures r == "" <==> es == []
  {
    if es == [] then "" else SensorText(name, es[..|es| - 1]) + Line(name, es[|es| - 1])
  }

  /** The text both loops accumulate over `sensors`. */
  function TempText(sensors: seq<Sensor>): (r: string)
    ensures r == "" <==> forall k :: 0 <= k < |sensors| ==> sensors[k].entries == []
  {
    if sensors == [] then ""
    else TempText(sensors[..|sensors| - 1]) + SensorText(sensors[|sensors| - 1].name, sensors[|sensors| - 1].entries)
  }

  /**
   * The value of the field, or `None` when it is left out. The argument is
   * `None` when `sensors_temperatures()` raises (the bare `except` swallows it).
   */
  function TempField(temps: Option<seq<Sensor>>): (r: Option<string>)
    ensures r.Some? ==> temps.Some? && Trimmed(r.value)
  {
    if temps.None? || temps.value == [] then None
    else
      var text := TempText(temps.value);
      if text != "" then Some(Strip(text)) else None
  }

  /** One more reading appends one more line. */
  lemma SensorTextSnoc(name: string, es: seq<Reading>, j: nat)
    requires j < |es|
    ensures SensorText(name, es[..j + 1]) == SensorText(name, es[..j]) + Line(name, es[j])
  {
    assert es[..j + 1][..j] == es[..j];
  }

  /** One more sensor appends the text of its readings. */
  lemma TempTextSnoc(sensors: seq<Sensor>, i: nat)
    requires i < |sensors|
    ensures TempText(sensors[..i + 1]) == TempText(sensors[..i]) + SensorText(sensors[i].name, sensors[i].entries)
  {
    assert sensors[..i + 1][..i] == sensors[..i];
  }

  /** The inner loop of the embed builder: the lines of one sensor appended to `text`. */
  method AppendSensor(text: string, name: string, entries: seq<Reading>) returns (r: string)
    ensures r == text + SensorText(name, entries)
  {
    r := text;
    var j := 0;
    while j < |entries|
      invariant 0 <= j <= |entries|
      invariant r == text + SensorText(name, entries[..j])
    {
      SensorTextSnoc(name, entries, j);
      r := r + Line(name, entries[j]);
      j := j + 1;
    }
    assert entries[..j] == entries;
  }

  /** The two nested loops of the embed builder, accumulating `temp_text`. */
  method TemperatureField(temps: Option<seq<Sensor>>) returns (field: Option<string>)
    ensures field == TempField(temps)
  {
    field := None;
    if temps.None? || temps.value == [] {
      return;
    }
    var sensors := temps.value;
    var text := "";
    var i := 0;
    while i < |sensors|
      invariant 0 <= i <= |sensors|
      invariant text == TempText(sensors[..i])
    {
      text := AppendSensor(text, sensors[i].name, sensors[i].entries);
      TempTextSnoc(sensors, i);
      i := i + 1;
    }
    assert sensors[..i] == sensors;
    if text != "" {
      field := Some(Strip(text));
    }
  }

  /** The readings of sensor `name`, each beside the name. */
  function Tagged(name: string, es: seq<Reading>): (r: seq<(string, Reading)>)
    ensures |r| == |es|
  {
    if es == [] then [] else Tagged(name, es[..|es| - 1]) + [(name, es[|es| - 1])]
  }

  /** Every reading in iteration order, beside the name of its sensor. */
  function Flatten(sensors: seq<Sensor>): seq<(string, Reading)>
  {
    if sensors == [] then []
    else
      var last := sensors[|sensors| - 1];
      Flatten(sensors[..|sensors| - 1]) + Tagged(last.name, last.entries)
  }

  /** The lines of `rs`, one after the other. */
  function Lines(rs: seq<(string, Reading)>): string
  {
    if rs == [] then "" else Lines(rs[..|rs| - 1]) + Line(rs[|rs| - 1].0, rs[|rs| - 1].1)
  }

  lemma {:induction false} LinesAppend(a: seq<(string, Reading)>, b: seq<(string, Reading)>)
    ensures Lines(a + b) == Lines(a) + Lines(b)
    decreases |b|
  {
    if b != [] {
      assert (a + b)[..|a + b| - 1] == a + b[..|b| - 1];
      LinesAppend(a, b[..|b| - 1]);
    } else {
      assert a + b == a;
    }
  }

  lemma {:induction false} SensorTextIsLines(name: string, es: seq<Reading>)
    ensures SensorText(name, es) == Lines(Tagged(name, es))
  {
    if es != [] {
      SensorTextIsLines(name, es[..|es| - 1]);
    }
  }

  /** The nested fold is the flat one: one line per reading, sensors and readings in order. */
  lemma {:induction false} TempTextIsLines(sensors: seq<Sensor>)
    ensures TempText(sensors) == Lines(Flatten(sensors))
  {
    if sensors != [] {
      var last := sensors[|sensors| - 1];
      TempTextIsLines(sensors[..|sensors| - 1]);
      SensorTextIsLines(last.name, last.entries);
      LinesAppend(Flatten(sensors[..|sensors| - 1]), Tagged(last.name, last.entries));
    }
  }

  /** Each reading contributes one non-empty line, so the text is empty exactly when there are no readings. */
  lemma {:induction false} TempTextEmpty(sensors: seq<Sensor>)
    ensures TempText(sensors) == "" <==> Flatten(sensors) == []
  {
    TempTextIsLines(sensors);
    LinesEmpty(Flatten(sensors));
  }

  lemma {:induction false} LinesEmpty(rs: seq<(string, Reading)>)
    ensures Lines(rs) == "" <==> rs == []
  {
    if rs != [] {
      var l := Line(rs[|rs| - 1].0, rs[|rs| - 1].1);
      assert |Lines(rs)| >= |l| > 0;
    }
  }

  /** The field is added exactly when some sensor has a reading. */
  lemma FieldPresent(temps: Option<seq<Sensor>>)
    ensures TempField(temps).Some? <==> temps.Some? && Flatten(temps.value) != []
  {
    if temps.Some? {
      TempTextEmpty(temps.value);
      if temps.value == [] {
        assert Flatten(temps.value) == [];
      }
    }
  }

  /** A field that is added is never empty: its last reading's "°C" survives the strip. */
  lemma FieldNotEmpty(temps: Option<seq<Sensor>>)
    requires TempField(temps).Some?
    ensures TempField(temps).value != ""
  {
    var text := TempText(temps.value);
    TempTextIsLines(temps.value);
    var rs := Flatten(temps.value);
    LinesEmpty(rs);
    var last := Line(rs[|rs| - 1].0, rs[|rs| - 1].1);
    assert text == Lines(rs[..|rs| - 1]) + last;
    var k := |text| - 3;
    assert text[k] == '\U{B0}' && !IsSpace(text[k]);
    StripKeepsNonSpace(text, k);
  }
}
