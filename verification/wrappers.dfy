/** Option and Result types standing in for Java's null and for its exceptions. */
module Wrappers {

  /** A Java reference that may be null: `None` is null. */
  datatype Option<+T> = None | Some(value: T) {
    function GetOr(default: T): T {
      match this
      case Some(v) => v
      case None => default
    }
  }

  /** The kinds of exception the core throws or lets through. */
  datatype Error =
    | NullPointer            // java.lang.NullPointerException
    | IllegalArgument        // java.lang.IllegalArgumentException (Spring Assert, SecretKeySpec)
    | Arithmetic             // java.lang.ArithmeticException (division by zero)
    | ClassCast              // java.lang.ClassCastException (a key that is not an RSAKey)
    | UnsupportedOperation   // java.lang.UnsupportedOperationException (fixed-size list)
    | UnknownCharset         // RuntimeException("cannot find charset ...")
    | NotDesAlgorithm        // RuntimeException("Algorithm [{}] is not a DES algorithm!")
    | NotPbeAlgorithm        // RuntimeException("Algorithm [{}] is not a PBE algorithm!")
    | InvalidKey             // java.security.InvalidKeyException, wrapped
    | NoSuchAlgorithm        // java.security.NoSuchAlgorithmException, wrapped
    | GeneralSecurity        // any other java.security.GeneralSecurityException, wrapped
    | IO                     // java.io.IOException, wrapped

  /** The outcome of a Java call: a value, or the exception it ends with. */
  datatype Result<+T> = Ok(value: T) | Fail(error: Error) {
    predicate IsFailure() { Fail? }

    function PropagateFailure<U>(): Result<U>
      requires Fail?
    {
      Fail(error)
    }

    function Extract(): T
      requires Ok?
    {
      value
    }
  }
}
