/** Shared vocabulary of the simulator: identifiers, their sentinels, the
    parameter value sum type and the failure-carrying wrappers. */
module Types {

  /** Signal, device and function identifiers are dense `uint32` values; the
      model keeps them as `nat` and names the all-ones value as the sentinel. */
  type SignalId = nat
  type DeviceId = nat
  type FunctionId = nat

  const INVALID_SIGNAL: nat := 0xFFFF_FFFF
  const INVALID_DEVICE: nat := 0xFFFF_FFFF
  const INVALID_FUNCTION: nat := 0xFFFF_FFFF

  /** The value carried by parameters and command arguments:
      double, int64, bool or string (doubles are modelled as reals). */
  datatype Variant =
    | VDouble(d: real)
    | VInt64(i: int)
    | VBool(b: bool)
    | VString(s: string)

  /** Parameter and argument dictionaries (an ordered map in the source). */
  type Params = map<string, Variant>

  datatype Option<T> = None | Some(value: T)

  /** A computation that either yields a value or raises an error. */
  datatype Result<T, E> = Ok(value: T) | Err(error: E) {
    predicate IsFailure() { Err? }
    function PropagateFailure<U>(): Result<U, E>
      requires Err?
    {
      Err(error)
    }
    function Extract(): T
      requires Ok?
    {
      value
    }
  }

  /** A step that either succeeds without a value or raises an error. */
  datatype Outcome<E> = Pass | Fail(error: E) {
    predicate IsFailure() { Fail? }
    function PropagateFailure<U>(): Result<U, E>
      requires Fail?
    {
      Err(error)
    }
  }

  /** `std::clamp(v, lo, hi)`: `lo` when `v < lo`, else `hi` when `hi < v`,
      else `v`. Its precondition `lo <= hi` is not required by the callers. */
  function Clamp(v: real, lo: real, hi: real): (r: real)
    ensures lo <= hi ==> lo <= r <= hi
    ensures lo <= v <= hi ==> r == v
    ensures r == v || r == lo || r == hi
  {
    if v < lo then lo else if hi < v then hi else v
  }
}
