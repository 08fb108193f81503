/**
 * Lazy Bluetooth permission initialisation: asked for on Android and iOS
 * only, at most once after a success, and remembered as denied after a
 * failure. The plugin's `initialize` outcome is a parameter; `calls`
 * counts how often the plugin was asked.
 */
module Permissions {
  import opened Text

  predicate IsMobile(platform: string) {
    platform == "android" || platform == "ios"
  }

  class State {
    var isInitialized: bool
    var wasDenied: bool
    var calls: nat

    /** A success clears the denial, a failure clears the success: the two flags are never both set. */
    predicate Valid()
      reads this
    {
      !(isInitialized && wasDenied)
    }

    constructor()
      ensures Valid() && !isInitialized && !wasDenied && calls == 0
    {
      isInitialized := false;
      wasDenied := false;
      calls := 0;
    }

    /**
     * `initializeBluetoothPermissions`: a no-op off mobile or once
     * initialised; otherwise the plugin is asked, and its answer sets both
     * flags and is passed on.
     */
    method InitializeBluetoothPermissions(platform: string, answer: Status) returns (r: Status)
      requires Valid()
      modifies this
      ensures Valid()
      ensures !IsMobile(platform) || old(isInitialized) ==> r == Done && unchanged(this)
      ensures IsMobile(platform) && !old(isInitialized) ==>
        r == answer && calls == old(calls) + 1
        && isInitialized == answer.Done? && wasDenied == answer.Failed?
    {
      if !IsMobile(platform) {
        return Done;
      }
      if isInitialized {
        return Done;
      }
      calls := calls + 1;
      match answer
      case Done =>
        isInitialized := true;
        wasDenied := false;
        r := Done;
      case Failed(_) =>
        isInitialized := false;
        wasDenied := true;
        r := answer;
    }

    function WasPermissionDenied(): (r: bool)
      reads this
      ensures Valid() && r ==> !isInitialized
      ensures r == wasDenied
    {
      wasDenied
    }
  }

  /**
   * After one success on a mobile platform the plugin is never asked
   * again, and a later denial cannot be reported, whatever it would answer.
   */
  method InitializeOnce(s: State, platform: string, first: Status, second: Status)
    requires s.Valid() && !s.isInitialized && IsMobile(platform) && first.Done?
    modifies s
    ensures s.isInitialized && !s.WasPermissionDenied() && s.calls == old(s.calls) + 1
  {
    var r1 := s.InitializeBluetoothPermissions(platform, first);
    var r2 := s.InitializeBluetoothPermissions(platform, second);
    assert r2 == Done;
  }
}
