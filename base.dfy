/** Values shared by every part of the model: bytes, the outcome of an
    operation that can throw, and string joining. */
module Base {

  /** An unsigned 8-bit byte of the archive. */
  newtype byte = x: int | 0 <= x < 256

  datatype Option<+T> = None | Some(value: T) {
    function GetOr(default: T): T {
      if Some? then value else default
    }
  }

  /** The exceptions the decoders, the binary reader and the schema provider
      throw. Every one of them ends the current decode. */
  datatype Error =
    | EndOfStream          // EndOfStreamException: fewer bytes left than a read needs
    | InvalidStringLength  // IOException: a string's length prefix is negative
    | BadVarInt            // FormatException: a 7-bit encoded length does not end within five bytes
    | MissingSchema        // InvalidOperationException: an object value has no schema
    | UnsupportedKind      // NotSupportedException: the decoder has no rule for a value kind
    | UnsupportedEnumType  // NotSupportedException: an enum's underlying type is not integral
    | Overflow             // OverflowException: a value does not fit the type it is converted to
    | NotAnEnum            // ArgumentException: an enum operation applied to a non-enum type
    | EmptyTypeId          // ArgumentException: Resolve was given the all-zero type id
    | UnknownTypeId        // KeyNotFoundException: Resolve was given an id no loaded type carries
    | NullReference        // NullReferenceException: a schema payload the kind needs is absent

  /** Success with a value, or the exception that was thrown. Supports `:-`. */
  datatype Result<+T> = Ok(value: T) | Err(error: Error) {
    predicate IsFailure() {
      Err?
    }

    function PropagateFailure<U>(): Result<U>
      requires Err?
    {
      Err(error)
    }

    function Extract(): T
      requires Ok?
    {
      value
    }
  }

  /** A value read from a byte sequence, with the position just past it. */
  datatype Parsed<+T> = Parsed(value: T, next: nat)

  /** `string.Join(sep, parts)`. */
  function Join(sep: string, parts: seq<string>): string
  {
    if |parts| == 0 then ""
    else if |parts| == 1 then parts[0]
    else Join(sep, parts[..|parts| - 1]) + sep + parts[|parts| - 1]
  }

  /** Appending one more part adds the separator only when something precedes it. */
  lemma JoinSnoc(sep: string, parts: seq<string>, last: string)
    ensures Join(sep, parts + [last]) == Join(sep, parts) + (if parts == [] then "" else sep) + last
  {
    assert (parts + [last])[..|parts|] == parts;
  }
}
