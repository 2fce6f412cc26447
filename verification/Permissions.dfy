/** `SessionPermission` of schema/proto/roammand/v1/session.proto, and the lists of it that are in use. */
module Permissions {

  const VIEW_SCREEN := 1
  const CONTROL_INPUT := 2

  /** The two lists a session may be granted: viewing, or viewing and input control. */
  predicate IsNormal(permissions: seq<int>) {
    permissions == [VIEW_SCREEN] || permissions == [VIEW_SCREEN, CONTROL_INPUT]
  }
}
