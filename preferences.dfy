/**
 * The persisted "installed" preference that the installer activity writes and
 * the content provider reads. The preference store is abstracted to the value
 * stored under the installed-preference key: `None` when nothing was ever
 * committed under that key, `Some(b)` after `b` was committed.
 */
module Preferences {
  import opened Wrappers

  /**
   * `getBoolean(INSTALLED_PREFERENCE_KEY, false)`: the stored flag, or false
   * when the key was never written.
   */
  function IsInstalled(stored: Option<bool>): (installed: bool)
    ensures installed <==> stored == Some(true)
  {
    stored.GetOr(false)
  }
}
