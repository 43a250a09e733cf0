/** The control ledger's entries (`packages/mls/src/ledger.ts`), as their signatures authenticate them. */
module Ledger {
  import opened Wrappers
  import opened Utf8

  datatype Permission = Admin | Member

  /**
    The shapes `isDeviceValue` lets through. A reset, a log and a seed always carry a proof and a
    clock never does; the fields of a proof are not read in a group without a controller.
   */
  datatype DeviceOp =
    | Register(controller: string, name: Option<string>)
    | AddDevice(controller: string, name: Option<string>)
    | Revoke(proof: bool)
    | Label(name: Option<string>)
    | Beacon(logLength: int, headDigest: string)
    | Reset
    | Clock
    | ControllerLog
    | Seed

  datatype Value =
    | Role(permission: Permission)
    | Device(op: DeviceOp)
    | Payload(data: string)

  datatype Entry = Entry(kind: string, groupID: Text, subject: string, value: Value)

  /** An entry whose signature verified, with its authenticated issuer. */
  datatype Verified = Verified(issuer: string, entry: Entry)

  datatype FoldInput = FoldInput(verified: Verified, entryID: Text)

  datatype Drop = Drop(entryID: Text, reason: string)

  /** The genesis anchor of a group without a controller. */
  datatype Anchor = Anchor(creatorDID: string)

  const ROLE_KIND := "kumiai.role"
  const DEVICE_KIND := "kumiai.device"
  const GROUP_PREFIX := "kumiai."

  type Normalize = string -> string

  lemma KindsDiffer()
    ensures ROLE_KIND != DEVICE_KIND && GROUP_PREFIX <= ROLE_KIND && GROUP_PREFIX <= DEVICE_KIND
  {
    assert ROLE_KIND[7] != DEVICE_KIND[7];
  }
}
