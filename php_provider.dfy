/**
 * The PHP interpreter's concrete content provider: the generic provider with
 * an environment of one variable, ANDROID_DATA, set to the SD-card root
 * followed by the provider's Java package name.
 */
module PhpProvider {
  import opened Wrappers
  import opened JavaMaps
  import InterpreterProvider
  import Decimal

  /** The Java package of the provider class, which the environment value ends with. */
  const PackageName: string := "com.irontec.phpforandroid"

  /** The one environment variable the provider sets. */
  const EnvData: string := "ANDROID_DATA"

  /**
   * `getEnvironmentSettings`: never null, exactly one entry, ANDROID_DATA,
   * whose value is `sdcardRoot` (the SD-card root constant) followed by the
   * package name. It reads no state, so the installed flag cannot affect it.
   */
  function GetEnvironmentSettings(sdcardRoot: string): (settings: Option<JavaMap>)
    ensures settings.Some? && settings.value.Valid()
    ensures settings.value.order == [EnvData]
    ensures EnvData in settings.value.entries
    ensures var v := settings.value.entries[EnvData];
      && |v| == |sdcardRoot| + |PackageName|
      && v[..|sdcardRoot|] == sdcardRoot
      && v[|sdcardRoot|..] == PackageName
  {
    Some(Put(Empty, EnvData, sdcardRoot + PackageName))
  }

  /**
   * `query` on the PHP provider: the generic query with this provider's
   * environment. Nothing is answered unless installed or for an unknown URI;
   * installed, the environment-variables resource answers with the one-column
   * table ANDROID_DATA, the properties with the property table, and the
   * arguments with columns "0", "1", ... over the descriptor's arguments.
   */
  method Query(
    resource: InterpreterProvider.Resource, stored: Option<bool>,
    names: InterpreterProvider.PropertyNames, d: InterpreterProvider.Descriptor, sdcardRoot: string)
    returns (c: Option<InterpreterProvider.Cursor>)
    ensures stored != Some(true) ==> c.None?
    ensures resource == InterpreterProvider.NoMatch ==> c.None?
    ensures stored == Some(true) && resource == InterpreterProvider.EnvironmentVariables ==>
      c == Some(InterpreterProvider.Cursor([EnvData], [[sdcardRoot + PackageName]]))
    ensures stored == Some(true) && resource == InterpreterProvider.Properties ==>
      c.Some? && InterpreterProvider.IsOneRowTable(c.value, InterpreterProvider.PropertyMap(names, d))
    ensures stored == Some(true) && resource == InterpreterProvider.Arguments ==>
      && c.Some?
      && c.value.rows == [d.arguments]
      && |c.value.columns| == |d.arguments|
      && (forall i :: 0 <= i < |d.arguments| ==> c.value.columns[i] == Decimal.NatToString(i))
  {
    c := InterpreterProvider.Query(resource, stored, names, d, GetEnvironmentSettings(sdcardRoot));
    if stored == Some(true) && resource == InterpreterProvider.EnvironmentVariables {
      var env := GetEnvironmentSettings(sdcardRoot).value;
      assert c.value.columns == [EnvData];
      assert c.value.rows[0][0] == env.entries[EnvData] == sdcardRoot + PackageName;
      assert c.value.rows[0] == [sdcardRoot + PackageName];
      assert c.value.rows == [[sdcardRoot + PackageName]];
    }
  }
}
