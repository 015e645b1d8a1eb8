/**
 * The parts of Tink's keyset protobuf and key-status values that the primitive
 * container reads: a proto key's status and id; everything else about the
 * proto key is opaque metadata.
 */
module Keysets {

  newtype byte = x: int | 0 <= x < 0x100

  /** Java's `int`, used for key ids. */
  newtype int32 = x: int | -0x8000_0000 <= x < 0x8000_0000

  /** The protobuf enum `KeyStatusType`, including the value protobuf reports for unknown numbers. */
  datatype KeyStatusType =
    | StatusUnknown
    | StatusEnabled
    | StatusDisabled
    | StatusDestroyed
    | StatusUnrecognized(number: int)

  /** Tink's `KeyStatus`, the status an entry of a primitive set carries. */
  datatype KeyStatus = Enabled | Disabled | Destroyed

  /**
   * A `Keyset.Key` proto: its status, its id and the rest of it (key data,
   * output prefix type) as opaque metadata `M`.
   */
  datatype ProtoKey<M> = ProtoKey(metadata: M, status: KeyStatusType, keyId: int32)
}
