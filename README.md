# PHP for Android: install switch and interpreter provider

This project models, in Dafny, the two pieces of logic of the "PHP for
Android" interpreter packages (part of the Scripting Layer for Android):

- **The installer activity** (`Main`): one button that offers Install or
  Uninstall, a progress indicator, and the marker `mCurrentTask` of the task
  in flight. A request is ignored while a task is marked; otherwise the
  progress is shown, the marker set, and the installer or uninstaller factory
  asked for a background job. The job's completion hides the progress, clears
  the marker and, on success, commits the persisted installed flag, broadcasts
  INTERPRETER_ADDED or INTERPRETER_REMOVED, and flips the button. Reading the
  flag (`checkInstalled`) also broadcasts it.
- **The interpreter content provider** (`InterpreterProvider`, made concrete
  by `PhpProvider`): a read-only query that answers nothing unless the
  interpreter is marked installed, and otherwise returns the interpreter's
  properties, its environment variables or its numbered argument list as a
  one-row table whose columns are the map's keys.

Files:

- `install_switch.dfy` (module `InstallSwitch`): the activity's state as a
  value `SwitchState`, one specification function per operation, lemmas over
  sequences of events, and the class `Main` whose methods change its fields
  exactly as those functions say.
- `interpreter_provider.dfy` (module `InterpreterProvider`): `query`,
  `buildCursorFromMap`, `getProperties`, `getArguments`,
  `isInterpreterInstalled` and the insert/update/delete/getType stubs.
- `php_provider.dfy` (module `PhpProvider`): the concrete environment map and
  the concrete query.
- `java_maps.dfy` (module `JavaMaps`): a Java string map with its iteration
  order, and `put`.
- `decimal.dfy` (module `Decimal`): `Integer.toString` on non-negative
  numbers and its inverse.
- `preferences.dfy` (module `Preferences`): reading the installed flag with
  default false.
- `wrappers.dfy` (module `Wrappers`): `Option`, for Java's nullable results.

Abstractions: the factories are reduced to their outcome (`JobCreated` or
`FactoryThrew`); a started job is recorded in `executed`, the flag `pending`
says it has not yet called the listener, and it finishes by exactly one later
call of `OnTaskFinished`; broadcasts are appended to a log; the
preference store is the value stored under the installed key (`None` if never
written); the URI matcher is reduced to the resource it matched; the
descriptor is the values its accessors return; the seven property-name
constants and the SD-card root are parameters.

## Model

| member | source | states |
|---|---|---|
| `Preferences.IsInstalled` | android/PfaInterpreterForAndroid/src/com/googlecode/android_scripting/activity/Main.java:297-298 | The flag reads true exactly when true was stored; a never-written flag reads false. |
| `InstallSwitch.Notice` | android/PfaInterpreterForAndroid/src/com/googlecode/android_scripting/activity/Main.java:204-213 | The broadcast is INTERPRETER_ADDED exactly when installed (so INTERPRETER_REMOVED exactly when not), with data `package:` followed by the package name. |
| `InstallSwitch.WithInstalled` | android/PfaInterpreterForAndroid/src/com/googlecode/android_scripting/activity/Main.java:287-294 | After `setInstalled(b)` the flag reads back as b, exactly one broadcast matching b is appended, and nothing else changes. |
| `InstallSwitch.Checked` | android/PfaInterpreterForAndroid/src/com/googlecode/android_scripting/activity/Main.java:296-303 | `checkInstalled` returns true exactly when true is stored (default false) and appends one broadcast matching the returned value; nothing else changes. |
| `InstallSwitch.ButtonFor` | android/PfaInterpreterForAndroid/src/com/googlecode/android_scripting/activity/Main.java:109-113 | The button's handler uninstalls when installed and installs otherwise. |
| `InstallSwitch.OnCreate` | android/PfaInterpreterForAndroid/src/com/googlecode/android_scripting/activity/Main.java:104-115 | A created activity has no task, hidden progress, one broadcast of the stored state, and the Uninstall button exactly when the stored flag is true. |
| `InstallSwitch.Request` | android/PfaInterpreterForAndroid/src/com/googlecode/android_scripting/activity/Main.java:251-285 | A request while a task is marked changes nothing at all; from idle it marks the task and shows progress, starts a job, which then has to call back, only if the factory created one, and leaves flag, button and broadcasts alone. |
| `InstallSwitch.TaskFinished` | android/PfaInterpreterForAndroid/src/com/googlecode/android_scripting/activity/Main.java:79-100 | Completion always hides progress, clears the marker and leaves no job pending; success of an install stores true, offers Uninstall and broadcasts ADDED; success of an uninstall stores false, offers Install and broadcasts REMOVED; failure leaves flag, button and broadcasts unchanged; success needs a marked task. |
| `InstallSwitch.OnCreateIsConsistent` | android/PfaInterpreterForAndroid/src/com/googlecode/android_scripting/activity/Main.java:104-115 | A created activity satisfies the consistency invariant: progress shown exactly while a task is marked, Uninstall offered exactly when installed, latest broadcast matching the flag, and a pending job is the last started, of the marked kind. |
| `InstallSwitch.StepKeepsConsistent` | android/PfaInterpreterForAndroid/src/com/googlecode/android_scripting/activity/Main.java:79-100 | Each request and each completion keeps the consistency invariant. |
| `InstallSwitch.RunKeepsConsistent` | android/PfaInterpreterForAndroid/src/com/googlecode/android_scripting/activity/Main.java:251-294 | Every admissible sequence of requests and completions keeps the consistency invariant. |
| `InstallSwitch.AtMostOneJobInFlight` | android/PfaInterpreterForAndroid/src/com/googlecode/android_scripting/activity/Main.java:251-285 | Over any admissible sequence of events, each started job calls back exactly once and each completion comes from a started job: jobs started equal completions plus the job pending at the end, less the one pending at the start; so at most one job is in flight. |
| `InstallSwitch.BusyIgnoresRequests` | android/PfaInterpreterForAndroid/src/com/googlecode/android_scripting/activity/Main.java:251-254 | While a task is marked, any sequence of install and uninstall requests leaves the whole state unchanged. |
| `InstallSwitch.MarkedWithoutJobIsStuck` | android/PfaInterpreterForAndroid/src/com/googlecode/android_scripting/activity/Main.java:251-285 | A marked task with no job to call back admits only requests afterwards, and they change nothing. |
| `InstallSwitch.FactoryFailureBlocksRequests` | android/PfaInterpreterForAndroid/src/com/googlecode/android_scripting/activity/Main.java:256-265 | When the factory throws, the marker stays set, the progress stays shown and no job starts or is pending; every admissible continuation consists only of install or uninstall requests, all ignored, so the activity is blocked for good. |
| `InstallSwitch.StoredChangesOnlyOnCompletion` | android/PfaInterpreterForAndroid/src/com/googlecode/android_scripting/activity/Main.java:79-100 | Over any admissible run, the stored flag changes only if some successful completion occurred. |
| `InstallSwitch.InstalledOnlyByInstallJob` | android/PfaInterpreterForAndroid/src/com/googlecode/android_scripting/activity/Main.java:251-267 | Along any admissible run from a consistent state, once the flag reads installed an Install job has been started. |
| `InstallSwitch.FreshInstallNeedsJob` | android/PfaInterpreterForAndroid/src/com/googlecode/android_scripting/activity/Main.java:251-267 | From a fresh activity with nothing stored, no sequence of events marks the interpreter installed unless an Install job was started. |
| `InstallSwitch.InstallScenario` | android/PfaInterpreterForAndroid/src/com/googlecode/android_scripting/activity/Main.java:79-115 | From a fresh activity with nothing stored, install then success then a check reports installed, with broadcasts REMOVED, ADDED, ADDED. |
| `InstallSwitch.Main.constructor` | android/PfaInterpreterForAndroid/src/com/googlecode/android_scripting/activity/Main.java:104-115 | `onCreate` sets the fields to `OnCreate` and establishes the consistency invariant. |
| `InstallSwitch.Main.PrepareInstallButton` | android/PfaInterpreterForAndroid/src/com/googlecode/android_scripting/activity/Main.java:172-180 | The button reads "Install" and installs. |
| `InstallSwitch.Main.PrepareUninstallButton` | android/PfaInterpreterForAndroid/src/com/googlecode/android_scripting/activity/Main.java:194-202 | The button reads "Uninstall" and uninstalls. |
| `InstallSwitch.Main.BroadcastInstallationStateChange` | android/PfaInterpreterForAndroid/src/com/googlecode/android_scripting/activity/Main.java:204-213 | Appends exactly the matching broadcast and changes nothing else. |
| `InstallSwitch.Main.SetInstalled` | android/PfaInterpreterForAndroid/src/com/googlecode/android_scripting/activity/Main.java:287-294 | Changes the fields as `WithInstalled` says. |
| `InstallSwitch.Main.CheckInstalled` | android/PfaInterpreterForAndroid/src/com/googlecode/android_scripting/activity/Main.java:296-303 | Returns the value and changes the fields as `Checked` says. |
| `InstallSwitch.Main.Install` | android/PfaInterpreterForAndroid/src/com/googlecode/android_scripting/activity/Main.java:251-267 | Changes the fields as `Request` with kind Install says and keeps the consistency invariant. |
| `InstallSwitch.Main.Uninstall` | android/PfaInterpreterForAndroid/src/com/googlecode/android_scripting/activity/Main.java:269-285 | Changes the fields as `Request` with kind Uninstall says and keeps the consistency invariant. |
| `InstallSwitch.Main.Click` | android/PfaInterpreterForAndroid/src/com/googlecode/android_scripting/activity/Main.java:172-202 | A click requests the task of the handler the button was last prepared with and keeps the consistency invariant. |
| `InstallSwitch.Main.OnTaskFinished` | android/PfaInterpreterForAndroid/src/com/googlecode/android_scripting/activity/Main.java:79-100 | Called only by the pending job, changes the fields as `TaskFinished` says and keeps the consistency invariant. |
| `InterpreterProvider.IsInterpreterInstalled` | android/PhpForAndroid/src/com/googlecode/android_scripting/interpreter/InterpreterProvider.java:135-138 | True exactly when true is stored under the installed key; false by default. |
| `InterpreterProvider.BoolToString` | android/PhpForAndroid/src/com/googlecode/android_scripting/interpreter/InterpreterProvider.java:170-171 | The interactive-mode flag is written "true" exactly when it holds, and "false" otherwise. |
| `InterpreterProvider.BuildCursorFromMap` | android/PhpForAndroid/src/com/googlecode/android_scripting/interpreter/InterpreterProvider.java:140-147 | Null exactly for a null map; otherwise one row, columns the map's keys in iteration order, each once, under each column that key's value; an empty map gives a zero-column row. |
| `InterpreterProvider.CursorReadsBackMap` | android/PhpForAndroid/src/com/googlecode/android_scripting/interpreter/InterpreterProvider.java:144-146 | Reading the built row back as column-to-value gives exactly the original map. |
| `InterpreterProvider.PropertyMap` | android/PhpForAndroid/src/com/googlecode/android_scripting/interpreter/InterpreterProvider.java:161-173 | The property keys are exactly the seven names; the interactive-mode entry is "true" or "false" by `hasInteractiveMode`. |
| `InterpreterProvider.SevenProperties` | android/PhpForAndroid/src/com/googlecode/android_scripting/interpreter/InterpreterProvider.java:161-173 | With distinct names there are exactly seven properties, each equal to the descriptor's current accessor value. |
| `InterpreterProvider.GetProperties` | android/PhpForAndroid/src/com/googlecode/android_scripting/interpreter/InterpreterProvider.java:161-173 | The seven successive puts yield a well-formed map whose contents are `PropertyMap`. |
| `InterpreterProvider.NextKeyIsFresh` | android/PhpForAndroid/src/com/googlecode/android_scripting/interpreter/InterpreterProvider.java:179 | The numeral of the next column is not among the keys already put. |
| `InterpreterProvider.PutNextArgument` | android/PhpForAndroid/src/com/googlecode/android_scripting/interpreter/InterpreterProvider.java:178-181 | One loop turn extends a map of the first n arguments to one of the first n+1. |
| `InterpreterProvider.GetArguments` | android/PhpForAndroid/src/com/googlecode/android_scripting/interpreter/InterpreterProvider.java:175-183 | For n arguments: exactly n entries, iterated as "0".."n-1", key i holding argument i. |
| `InterpreterProvider.ArgumentLookup` | android/PhpForAndroid/src/com/googlecode/android_scripting/interpreter/InterpreterProvider.java:175-183 | Every key of the argument map is a decimal index below n whose value is the argument at that index. |
| `InterpreterProvider.ArgumentsExample` | android/PhpForAndroid/src/com/googlecode/android_scripting/interpreter/InterpreterProvider.java:175-183 | The arguments ["-f", "script.php"] give exactly {"0": "-f", "1": "script.php"} in that order. |
| `InterpreterProvider.Query` | android/PhpForAndroid/src/com/googlecode/android_scripting/interpreter/InterpreterProvider.java:107-128 | Nothing unless installed; nothing for an unmatched URI or a null environment map; otherwise the one-row table of the properties, of the environment map, or of the arguments (columns "0".."n-1", row the arguments). |
| `InterpreterProvider.Delete` | android/PhpForAndroid/src/com/googlecode/android_scripting/interpreter/InterpreterProvider.java:84-87 | Always 0 rows, and no state to change. |
| `InterpreterProvider.GetType` | android/PhpForAndroid/src/com/googlecode/android_scripting/interpreter/InterpreterProvider.java:89-92 | Always the provider's MIME type. |
| `InterpreterProvider.Insert` | android/PhpForAndroid/src/com/googlecode/android_scripting/interpreter/InterpreterProvider.java:94-97 | Always null. |
| `InterpreterProvider.Update` | android/PhpForAndroid/src/com/googlecode/android_scripting/interpreter/InterpreterProvider.java:130-133 | Always 0 rows. |
| `PhpProvider.GetEnvironmentSettings` | android/PhpForAndroid/src/com/irontec/phpforandroid/PhpProvider.java:86-91 | Never null; exactly one entry, ANDROID_DATA, whose value starts with the SD-card root and ends with "com.irontec.phpforandroid"; it reads no state. |
| `PhpProvider.Query` | android/PhpForAndroid/src/com/irontec/phpforandroid/PhpProvider.java:12-91 | Nothing unless installed and nothing for an unknown URI; installed, the environment resource gives the one-column table ANDROID_DATA with that one value, the properties resource the property table, and the arguments resource the columns "0".."n-1" over the arguments. |
| `Decimal.NatToString` | android/PhpForAndroid/src/com/googlecode/android_scripting/interpreter/InterpreterProvider.java:179 | `Integer.toString` of a column number is a non-empty string of digits. |
| `Decimal.NatToStringCanonical` | android/PhpForAndroid/src/com/googlecode/android_scripting/interpreter/InterpreterProvider.java:179 | The numeral has one digit exactly for 0..9 and no leading zero unless it is "0". |
| `Decimal.ParseNatToString` | android/PhpForAndroid/src/com/googlecode/android_scripting/interpreter/InterpreterProvider.java:179 | Parsing the numeral gives back the column number. |
| `Decimal.NatToStringInjective` | android/PhpForAndroid/src/com/googlecode/android_scripting/interpreter/InterpreterProvider.java:179 | Distinct column numbers give distinct keys. |

## Left out

- Logging (`Log.v` of the completion message, `Log.e` of the factory's exception): output only.
- View construction in `initializeViews`, including the floating-point scaling of margins; `about()` (a browser intent); `onStop`; the About button.
- The real installer and uninstaller jobs and their asynchronous execution: a job is recorded as started, and its completion is a later call of `OnTaskFinished`.
- `synchronized` and `volatile`: the model is single-threaded.
- SharedPreferences commit failure, intent delivery and `UriMatcher` internals: the flag is a stored value, broadcasts a log, the URI its matched resource.
- The iteration order of the properties `HashMap`, which Java leaves unspecified: the model iterates in insertion order, and no contract depends on it.
- Descriptor internals (`getBinary(...).getAbsolutePath()` and the context-dependent commands), the provider's `onCreate` wiring, and `PhpDescriptor`, which is not part of this model: the accessor values are parameters.
- `InterpreterProvider.SevenProperties`: holds only when the seven property-name constants are distinct, since their values are not part of this model.
- `Decimal.NatToString`: the argument counter is a Java `int`; overflow past 2^31 - 1 arguments is not modelled.
- The commented-out code in `PhpProvider.java` and `InterpreterProvider.java`, and the unused constants PHPHOME, PHPPATH and TEMP.
- The null-pointer exception that `onTaskFinished(true, …)` raises with no task marked: modelled as a precondition, not as a behaviour.
