/** The conversions of util/convert.py: a matrix to nested lists and to
    text, and the scene's Blender units per metre. A matrix is the
    sequence of its rows; the number format is the host's
    `str.format`, given as a function. */
module Convert {
  import opened Wrappers
  import opened Strings

  /** `[[fCol for fCol in xRow] for xRow in _matX]`. */
  function MatrixToList(m: seq<seq<real>>): (r: seq<seq<real>>)
    ensures |r| == |m|
    ensures forall i | 0 <= i < |m| :: |r[i]| == |m[i]| && forall j | 0 <= j < |m[i]| :: r[i][j] == m[i][j]
  {
    seq(|m|, i requires 0 <= i < |m| => seq(|m[i]|, j requires 0 <= j < |m[i]| => m[i][j]))
  }

  /** The copy is the matrix itself, row by row and entry by entry. */
  lemma MatrixToListCopies(m: seq<seq<real>>)
    ensures MatrixToList(m) == m
  {
    var r := MatrixToList(m);
    forall i | 0 <= i < |m| ensures r[i] == m[i] {
      assert |r[i]| == |m[i]|;
    }
  }

  /** One row of the text: its formatted cells joined by single spaces. */
  function RowToString(row: seq<real>, format: real -> string): (line: string)
    ensures |row| == 1 ==> line == format(row[0])
  {
    Join(seq(|row|, j requires 0 <= j < |row| => format(row[j])), " ")
  }

  /** The lines of the text, one per row. */
  function Lines(m: seq<seq<real>>, format: real -> string): (ls: seq<string>)
    ensures |ls| == |m| && forall i | 0 <= i < |m| :: ls[i] == RowToString(m[i], format)
  {
    seq(|m|, i requires 0 <= i < |m| => RowToString(m[i], format))
  }

  /** `MatrixToString`: the lines joined by newlines. */
  function MatrixToString(m: seq<seq<real>>, format: real -> string): (s: string)
    ensures |m| == 0 ==> s == ""
  {
    Join(Lines(m, format), "\n")
  }

  /** A line holds a newline only where a formatted cell does. */
  lemma {:induction false} JoinKeepsOut(parts: seq<string>, sep: string, c: char)
    requires c !in sep && forall k | 0 <= k < |parts| :: c !in parts[k]
    ensures c !in Join(parts, sep)
    decreases |parts|
  {
    if |parts| > 1 {
      JoinKeepsOut(parts[..|parts| - 1], sep, c);
    }
  }

  /** When no formatted number holds a newline, the text of a matrix with
      rows splits at its newlines into exactly one line per row, each the
      row's cells joined by spaces. */
  lemma MatrixToStringLines(m: seq<seq<real>>, format: real -> string)
    requires |m| > 0 && forall x :: '\n' !in format(x)
    ensures Split(MatrixToString(m, format), '\n') == Lines(m, format)
    ensures |Split(MatrixToString(m, format), '\n')| == |m|
  {
    var ls := Lines(m, format);
    forall i | 0 <= i < |m| ensures '\n' !in ls[i] {
      var cells := seq(|m[i]|, j requires 0 <= j < |m[i]| => format(m[i][j]));
      forall k | 0 <= k < |cells| ensures '\n' !in cells[k] {
        var x := m[i][k];
        assert '\n' !in format(x);
        assert cells[k] == format(x);
      }
      JoinKeepsOut(cells, " ", '\n');
    }
    SplitJoin(ls, '\n');
  }

  // ---------------------------------------------------------------------
  // BlenderUnitsPerMeterFactor

  /** What the factor reads of a scene: `unit_settings.scale_length`, and
      the length unit that the source's unit table is keyed by. */
  datatype UnitSettings = UnitSettings(scaleLength: real, lengthUnit: string)

  /** The source's table of metres per unit, which the factor does not
      use. */
  const UnitsToMeters: map<string, real> :=
    map["METERS" := 1.0, "KILOMETERS" := 1000.0, "CENTIMETERS" := 0.01,
        "MILLIMETERS" := 0.001, "MICROMETERS" := 0.000001]

  const DefaultScene := "Scene"
  const ZeroDivisionError := "float division by zero"

  function MissingScene(name: string): string {
    "bpy_prop_collection[key]: key \"" + name + "\" not found"
  }

  /** `BlenderUnitsPerMeterFactor`: `1 / scale_length` of the given scene,
      or of the one named "Scene" when none is given. */
  function UnitsPerMeterFactor(scene: Option<UnitSettings>, scenes: map<string, UnitSettings>): (r: Result<real>)
    ensures scene.None? && DefaultScene !in scenes ==> r == Err(MissingScene(DefaultScene))
    ensures r.Ok? ==> var u := if scene.Some? then scene.value else scenes[DefaultScene];
      u.scaleLength != 0.0 && r.value * u.scaleLength == 1.0
  {
    var u :- if scene.Some? then Ok(scene.value)
             else if DefaultScene in scenes then Ok(scenes[DefaultScene])
             else Err(MissingScene(DefaultScene));
    if u.scaleLength == 0.0 then Err(ZeroDivisionError) else Ok(1.0 / u.scaleLength)
  }

  /** The factor raises only for a missing default scene or a zero scale;
      it is the reciprocal of the scale length and does not depend on the
      length unit. */
  lemma FactorOfScale(u: UnitSettings, unit: string, scenes: map<string, UnitSettings>)
    ensures UnitsPerMeterFactor(Some(u), scenes).Err? <==> u.scaleLength == 0.0
    ensures UnitsPerMeterFactor(Some(u), scenes) == UnitsPerMeterFactor(Some(u.(lengthUnit := unit)), scenes)
    ensures u.scaleLength != 0.0 ==> UnitsPerMeterFactor(Some(u), scenes) == Ok(1.0 / u.scaleLength)
  {
  }

  /** Without a scene the one named "Scene" is used. */
  lemma FactorDefaultScene(scenes: map<string, UnitSettings>)
    requires DefaultScene in scenes
    ensures UnitsPerMeterFactor(None, scenes) == UnitsPerMeterFactor(Some(scenes[DefaultScene]), map[])
  {
  }
}
