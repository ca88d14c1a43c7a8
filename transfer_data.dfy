/**
  The transfer record shown in the transfer lists (TransferData) and the flag
  values and masks the lists filter with (src/MEGASync/gui/TransferItem2.cpp).

  Transfer states are single enum values; masks over them are 32-bit flag
  words. Bit values: NONE = 0 (no bit), then one bit per state in declaration
  order. Transfer types are flag words; DOWNLOAD = 1, UPLOAD = 2,
  LTCPDOWNLOAD = 4, SYNC = 8.
*/
module TransferData {

  type Flags = bv32

  datatype TransferState =
    | StateNone
    | Queued
    | Active
    | Paused
    | Retrying
    | Completing
    | Completed
    | Cancelled
    | Failed

  /** The flag value of a state. */
  function StateBit(s: TransferState): Flags
  {
    match s
    case StateNone => 0
    case Queued => 1
    case Active => 2
    case Paused => 4
    case Retrying => 8
    case Completing => 16
    case Completed => 32
    case Cancelled => 64
    case Failed => 128
  }

  const TRANSFER_NONE: Flags := 0

  const TRANSFER_DOWNLOAD: Flags := 1
  const TRANSFER_UPLOAD: Flags := 2
  const TRANSFER_LTCPDOWNLOAD: Flags := 4
  const TRANSFER_SYNC: Flags := 8

  /** Every state except NONE. */
  const STATE_MASK: Flags :=
    StateBit(Queued) | StateBit(Active) | StateBit(Paused) | StateBit(Retrying) |
    StateBit(Completing) | StateBit(Completed) | StateBit(Cancelled) | StateBit(Failed)

  /** LTCP download, upload and download; SYNC is not part of it. */
  const TYPE_MASK: Flags := TRANSFER_LTCPDOWNLOAD | TRANSFER_UPLOAD | TRANSFER_DOWNLOAD

  /** The states a transfer can no longer leave: completed, cancelled, failed. */
  const FINISHED_STATES_MASK: Flags := StateBit(Completed) | StateBit(Cancelled) | StateBit(Failed)

  /** `~FileTypes()`: every file-type bit. */
  const ALL_FILE_TYPES: Flags := 0xFFFF_FFFF

  /** SDK error code for an exceeded quota (MegaError::API_EOVERQUOTA). */
  const API_EOVERQUOTA: int := -17

  /** `state & mask`, read as a condition. */
  predicate InMask(s: TransferState, mask: Flags)
  {
    StateBit(s) & mask != 0
  }

  predicate HasType(t: Flags, bit: Flags)
  {
    t & bit != 0
  }

  predicate IsFinished(s: TransferState)
  {
    InMask(s, FINISHED_STATES_MASK)
  }

  /** The fields of TransferData that the model reads or writes. */
  datatype Transfer = Transfer(
    tag: int,
    state: TransferState,
    transferType: Flags,
    fileType: Flags,
    filename: string,
    totalSize: int,
    priority: int,
    transferredBytes: int,
    speed: int,
    meanSpeed: int,
    remainingTime: int,
    errorCode: int,
    errorValue: int,
    finishedTime: int,
    parentHandle: int,
    nodeHandle: int,
    publicNode: int,
    temporaryError: bool)

  /** Distinct states have distinct single bits, so a state is in a mask made of
      other states only if it is one of them. */
  lemma StateBitsDistinct(a: TransferState, b: TransferState)
    ensures a != b ==> StateBit(a) & StateBit(b) == 0
    ensures a != StateNone ==> StateBit(a) & StateBit(a) != 0
  {
  }

  lemma StateMaskIsEveryStateButNone(s: TransferState)
    ensures InMask(s, STATE_MASK) <==> s != StateNone
  {
  }

  lemma TypeMaskExcludesSync()
    ensures TYPE_MASK & TRANSFER_SYNC == 0
    ensures HasType(TYPE_MASK, TRANSFER_DOWNLOAD) && HasType(TYPE_MASK, TRANSFER_UPLOAD)
    ensures HasType(TYPE_MASK, TRANSFER_LTCPDOWNLOAD)
  {
  }

  lemma FinishedStates(s: TransferState)
    ensures IsFinished(s) <==> s == Completed || s == Cancelled || s == Failed
  {
  }

  /** The state masks used by the row widgets: each holds exactly its two
      states. */
  lemma QueuedOrRetryingMask(s: TransferState)
    ensures InMask(s, StateBit(Queued) | StateBit(Retrying)) <==> s == Queued || s == Retrying
  {
    match s {
      case StateNone =>
      case Queued =>
      case Active =>
      case Paused =>
      case Retrying =>
      case Completing =>
      case Completed =>
      case Cancelled =>
      case Failed =>
    }
  }

  lemma FailedOrCompletedMask(s: TransferState)
    ensures InMask(s, StateBit(Failed) | StateBit(Completed)) <==> s == Failed || s == Completed
  {
    match s {
      case StateNone =>
      case Queued =>
      case Active =>
      case Paused =>
      case Retrying =>
      case Completing =>
      case Completed =>
      case Cancelled =>
      case Failed =>
    }
  }

  lemma CompletedOrCompletingMask(s: TransferState)
    ensures InMask(s, StateBit(Completed) | StateBit(Completing)) <==> s == Completed || s == Completing
  {
    match s {
      case StateNone =>
      case Queued =>
      case Active =>
      case Paused =>
      case Retrying =>
      case Completing =>
      case Completed =>
      case Cancelled =>
      case Failed =>
    }
  }
}
