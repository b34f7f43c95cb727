/** Status codes shared by every component of the model, and the small
    wrapper types used for results that may fail. */
module ZxStatus {

  /** The kernel's status codes, by the names the drivers use. Codes that
      come from a collaborator the model cannot see (a device, a VMO call)
      are carried as `Other`. */
  datatype Status =
    | Ok
    | ErrInternal
    | ErrNotSupported
    | ErrNoResources
    | ErrNoMemory
    | ErrInvalidArgs
    | ErrBadState
    | ErrTimedOut
    | ErrNotFound
    | ErrAlreadyExists
    | ErrOutOfRange
    | ErrBufferTooSmall
    | ErrIo
    | ErrIoRefused
    | ErrIoDataIntegrity
    | ErrIoNotPresent
    | ErrIoInvalid
    | ErrIoOverrun
    | ErrNoSpace
    | ErrFileBig
    | ErrAccessDenied
    | ErrNotFile
    | ErrNotDir
    | ErrNotEmpty
    | ErrUnavailable
    | ErrShouldWait
    | ErrBadHandle
    | ErrNameTooLong
    | ErrCanceled
    | ErrNext
    | ErrPeerClosed
    | Other(code: int)

  datatype Option<T> = None | Some(value: T)

  datatype Result<T> = Success(value: T) | Failure(error: Status) {
    predicate IsFailure() { Failure? }
    function PropagateFailure<U>(): Result<U>
      requires Failure?
    {
      Failure(error)
    }
    function Extract(): T
      requires Success?
    {
      value
    }
  }

  /** Unsigned 32-bit and 64-bit bounds used for the source's integer widths. */
  const U8_MAX: nat := 0xff
  const U16_MAX: nat := 0xffff
  const U32_MAX: nat := 0xffff_ffff
  const U64_MAX: nat := 0xffff_ffff_ffff_ffff
  const INT32_MAX: nat := 0x7fff_ffff

  /** `2^n`. */
  function Pow2(n: nat): (r: nat)
    ensures r >= 1
    ensures n >= 1 ==> r % 2 == 0
  {
    if n == 0 then 1 else 2 * Pow2(n - 1)
  }
}
