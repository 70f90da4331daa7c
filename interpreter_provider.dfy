/**
 * The read-only content provider that other applications query for an
 * interpreter's properties, environment variables and invocation arguments.
 * Each answer is a one-row table built from a string map, and nothing is
 * answered unless the interpreter is marked installed.
 *
 * Abstractions: the `UriMatcher` is reduced to the resource it matches, the
 * preference store to the stored installed flag, the descriptor to the
 * values its accessors return at query time, and the seven
 * `InterpreterPropertyNames` keys to parameters.
 */
module InterpreterProvider {
  import opened Wrappers
  import opened JavaMaps
  import Decimal
  import Preferences

  /** The result of matching a query URI. */
  datatype Resource = Properties | EnvironmentVariables | Arguments | NoMatch

  /** What the interpreter descriptor's accessors return. */
  datatype Descriptor = Descriptor(
    name: string,
    niceName: string,
    extension: string,
    binaryPath: string,
    interactiveCommand: string,
    scriptCommand: string,
    hasInteractiveMode: bool,
    arguments: seq<string>)

  /** The column names of the properties table (`InterpreterPropertyNames`). */
  datatype PropertyNames = PropertyNames(
    name: string,
    niceName: string,
    extension: string,
    binary: string,
    interactiveCommand: string,
    scriptCommand: string,
    hasInteractiveMode: string)
  {
    function Keys(): seq<string> {
      [name, niceName, extension, binary, interactiveCommand, scriptCommand, hasInteractiveMode]
    }

    /** No two of the seven names coincide. */
    predicate Distinct() {
      && name !in [niceName, extension, binary, interactiveCommand, scriptCommand, hasInteractiveMode]
      && niceName !in [extension, binary, interactiveCommand, scriptCommand, hasInteractiveMode]
      && extension !in [binary, interactiveCommand, scriptCommand, hasInteractiveMode]
      && binary !in [interactiveCommand, scriptCommand, hasInteractiveMode]
      && interactiveCommand !in [scriptCommand, hasInteractiveMode]
      && scriptCommand != hasInteractiveMode
    }
  }

  /** A `MatrixCursor`: column names and rows of values. */
  datatype Cursor = Cursor(columns: seq<string>, rows: seq<seq<string>>)

  /** The MIME type every URI of this provider has. */
  const Mime: string := "vnd.android.cursor.item/vnd.googlecode.interpreter"

  /** A content URI; the provider never looks inside one except through the matcher. */
  type Uri = string

  /**
   * `c` is a table with exactly one row, one column per key of `kv`, each key
   * once, and under each column the value `kv` gives that key.
   */
  ghost predicate IsOneRowTable(c: Cursor, kv: map<string, string>) {
    && |c.rows| == 1
    && |c.rows[0]| == |c.columns|
    && (forall i, j :: 0 <= i < j < |c.columns| ==> c.columns[i] != c.columns[j])
    && (forall k :: k in kv <==> k in c.columns)
    && (forall i :: 0 <= i < |c.columns| ==> c.columns[i] in kv && c.rows[0][i] == kv[c.columns[i]])
  }

  /** Reads the single row of a table back as a map from column to value. */
  function RowAsMap(c: Cursor): (m: map<string, string>)
    requires |c.rows| == 1 && |c.rows[0]| == |c.columns|
    requires forall i, j :: 0 <= i < j < |c.columns| ==> c.columns[i] != c.columns[j]
  {
    map i | 0 <= i < |c.columns| :: c.columns[i] := c.rows[0][i]
  }

  /** `Boolean.toString`. */
  function BoolToString(b: bool): (s: string)
    ensures s == "true" || s == "false"
    ensures s == "true" <==> b
  {
    if b then "true" else "false"
  }

  /** `buildCursorFromMap`: null for a null map, else the map as a one-row table in its iteration order. */
  function BuildCursorFromMap(m: Option<JavaMap>): (c: Option<Cursor>)
    requires m.Some? ==> m.value.Valid()
    ensures c.None? <==> m.None?
    ensures m.Some? ==> c.value.columns == m.value.order && IsOneRowTable(c.value, m.value.entries)
  {
    match m
    case None => None
    case Some(kv) => Some(Cursor(kv.order, [kv.Values()]))
  }

  /** A client that reads the row of a built cursor gets back exactly the map it was built from. */
  lemma CursorReadsBackMap(m: JavaMap)
    requires m.Valid()
    ensures var c := BuildCursorFromMap(Some(m)).value; RowAsMap(c) == m.entries
  {
  }

  /**
   * The properties a query for `Properties` reports, keyed by the property
   * names. Whatever the names, the keys are exactly the seven names and the
   * interactive-mode flag, put last, reads "true" or "false".
   */
  function PropertyMap(names: PropertyNames, d: Descriptor): (kv: map<string, string>)
    ensures forall k :: k in kv <==> k in names.Keys()
    ensures kv[names.hasInteractiveMode] == BoolToString(d.hasInteractiveMode)
  {
    map[names.name := d.name][names.niceName := d.niceName][names.extension := d.extension]
      [names.binary := d.binaryPath][names.interactiveCommand := d.interactiveCommand]
      [names.scriptCommand := d.scriptCommand]
      [names.hasInteractiveMode := BoolToString(d.hasInteractiveMode)]
  }

  /**
   * With distinct property names there are exactly seven properties, each the
   * descriptor's current value.
   */
  lemma SevenProperties(names: PropertyNames, d: Descriptor)
    requires names.Distinct()
    ensures var kv := PropertyMap(names, d);
      && |kv| == 7
      && kv[names.name] == d.name
      && kv[names.niceName] == d.niceName
      && kv[names.extension] == d.extension
      && kv[names.binary] == d.binaryPath
      && kv[names.interactiveCommand] == d.interactiveCommand
      && kv[names.scriptCommand] == d.scriptCommand
  {
  }

  /**
   * `getProperties`: a hash map filled by seven successive `put`s. Its
   * iteration order is left unspecified; its contents are `PropertyMap`.
   */
  method GetProperties(names: PropertyNames, d: Descriptor) returns (values: JavaMap)
    ensures values.Valid()
    ensures values.entries == PropertyMap(names, d)
  {
    values := Empty;
    values := Put(values, names.name, d.name);
    values := Put(values, names.niceName, d.niceName);
    values := Put(values, names.extension, d.extension);
    values := Put(values, names.binary, d.binaryPath);
    values := Put(values, names.interactiveCommand, d.interactiveCommand);
    values := Put(values, names.scriptCommand, d.scriptCommand);
    values := Put(values, names.hasInteractiveMode, BoolToString(d.hasInteractiveMode));
  }

  /** `m` maps "0", "1", ... to the first `n` arguments, in argument order. */
  ghost predicate ArgumentsUpTo(m: JavaMap, arguments: seq<string>, n: nat) {
    && n <= |arguments|
    && m.Valid()
    && |m.order| == n
    && (forall i :: 0 <= i < n ==> m.order[i] == Decimal.NatToString(i))
    && (forall i :: 0 <= i < n ==> m.order[i] in m.entries && m.entries[m.order[i]] == arguments[i])
  }

  /** `m` maps "0", "1", ... to all the arguments, in argument order. */
  ghost predicate IsArgumentMap(m: JavaMap, arguments: seq<string>) {
    ArgumentsUpTo(m, arguments, |arguments|)
  }

  /** The numeral of the next column is none of the numerals of the columns before it. */
  lemma NextKeyIsFresh(order: seq<string>, column: nat)
    requires |order| == column
    requires forall i :: 0 <= i < column ==> order[i] == Decimal.NatToString(i)
    ensures Decimal.NatToString(column) !in order
  {
    forall i | 0 <= i < column
      ensures order[i] != Decimal.NatToString(column)
    {
      Decimal.NatToStringInjective(i, column);
    }
  }

  /** One turn of the loop of `getArguments`: the next argument goes under the next numeral. */
  lemma PutNextArgument(m: JavaMap, arguments: seq<string>, n: nat)
    requires ArgumentsUpTo(m, arguments, n) && n < |arguments|
    ensures ArgumentsUpTo(Put(m, Decimal.NatToString(n), arguments[n]), arguments, n + 1)
  {
    var key := Decimal.NatToString(n);
    NextKeyIsFresh(m.order, n);
    var r := Put(m, key, arguments[n]);
    assert r.order == m.order + [key] && r.entries == m.entries[key := arguments[n]];
    forall i | 0 <= i < n
      ensures r.order[i] == m.order[i] && r.order[i] != key
    {
    }
  }

  /** `getArguments`: numbers the descriptor's arguments from zero into an insertion-ordered map. */
  method GetArguments(arguments: seq<string>) returns (values: JavaMap)
    ensures IsArgumentMap(values, arguments)
  {
    values := Empty;
    var column := 0;
    while column < |arguments|
      invariant ArgumentsUpTo(values, arguments, column)
    {
      PutNextArgument(values, arguments, column);
      values := Put(values, Decimal.NatToString(column), arguments[column]);
      column := column + 1;
    }
  }

  /** Every key of an argument map names, in decimal, the index of the argument it holds. */
  lemma ArgumentLookup(m: JavaMap, arguments: seq<string>, key: string)
    requires IsArgumentMap(m, arguments)
    requires key in m.entries
    ensures Decimal.IsDigits(key)
    ensures Decimal.ParseDigits(key) < |arguments|
    ensures m.entries[key] == arguments[Decimal.ParseDigits(key)]
  {
    var i :| 0 <= i < |m.order| && m.order[i] == key;
    Decimal.ParseNatToString(i);
  }

  /** The arguments ["-f", "script.php"] are reported as {"0": "-f", "1": "script.php"}. */
  lemma ArgumentsExample(m: JavaMap)
    requires IsArgumentMap(m, ["-f", "script.php"])
    ensures m == JavaMap(["0", "1"], map["0" := "-f", "1" := "script.php"])
  {
    assert Decimal.NatToString(0) == "0";
    assert Decimal.NatToString(1) == "1";
    assert m.order == ["0", "1"];
    assert m.entries.Keys == {"0", "1"};
  }

  /** `isInterpreterInstalled`. */
  function IsInterpreterInstalled(stored: Option<bool>): (installed: bool)
    ensures installed <==> stored == Some(true)
  {
    Preferences.IsInstalled(stored)
  }

  /**
   * `query`: nothing unless the interpreter is installed; otherwise the
   * matched resource's map as a one-row table, and nothing for a URI that
   * matches no resource or an environment map that is null.
   * `environment` is what the concrete provider's `getEnvironmentSettings` returns.
   */
  method Query(
    resource: Resource, stored: Option<bool>, names: PropertyNames, d: Descriptor,
    environment: Option<JavaMap>)
    returns (c: Option<Cursor>)
    requires environment.Some? ==> environment.value.Valid()
    ensures stored != Some(true) ==> c.None?
    ensures resource == NoMatch ==> c.None?
    ensures stored == Some(true) && resource == Properties ==>
      c.Some? && IsOneRowTable(c.value, PropertyMap(names, d))
    ensures stored == Some(true) && resource == EnvironmentVariables ==>
      && (c.None? <==> environment.None?)
      && (c.Some? ==> c.value.columns == environment.value.order
                      && IsOneRowTable(c.value, environment.value.entries))
    ensures stored == Some(true) && resource == Arguments ==>
      && c.Some?
      && c.value.rows == [d.arguments]
      && |c.value.columns| == |d.arguments|
      && (forall i :: 0 <= i < |d.arguments| ==> c.value.columns[i] == Decimal.NatToString(i))
  {
    if !IsInterpreterInstalled(stored) {
      return None;
    }
    var kv: Option<JavaMap>;
    match resource {
      case Properties =>
        var p := GetProperties(names, d);
        kv := Some(p);
      case EnvironmentVariables =>
        kv := environment;
      case Arguments =>
        var a := GetArguments(d.arguments);
        assert a.Values() == d.arguments;
        kv := Some(a);
      case NoMatch =>
        kv := None;
    }
    c := BuildCursorFromMap(kv);
  }

  /** `delete`: nothing is ever deleted. */
  function Delete(uri: Uri, selection: Option<string>, selectionArgs: seq<string>): (count: int)
    ensures count == 0
  {
    0
  }

  /** `update`: nothing is ever updated. */
  function Update(uri: Uri, values: map<string, string>, selection: Option<string>, selectionArgs: seq<string>): (count: int)
    ensures count == 0
  {
    0
  }

  /** `insert`: nothing is ever inserted, so no URI is returned. */
  function Insert(uri: Uri, values: map<string, string>): (inserted: Option<Uri>)
    ensures inserted.None?
  {
    None
  }

  /** `getType`: every URI has the provider's one MIME type. */
  function GetType(uri: Uri): (mime: string)
    ensures mime == Mime
  {
    Mime
  }
}
