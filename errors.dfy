/**
 * The error vocabulary of the CBOR library (tinycbor) and its code-to-message
 * table, `cbor_error_string` in tinycbor/cborerrorstrings.c.
 */
module CborErrors {

  /**
   * The error conditions a CBOR operation reports. Every enumerator the
   * table or its documentation names has a constructor; `OtherCode` stands
   * for any other value of the C enum, such as out-of-memory bitwise-ORed
   * with another condition.
   */
  datatype CborError =
    | NoError
    | UnknownError
    | ErrorUnknownLength
    | ErrorAdvancePastEOF
    | ErrorIO
    | ErrorGarbageAtEnd
    | ErrorUnexpectedEOF
    | ErrorUnexpectedBreak
    | ErrorUnknownType
    | ErrorIllegalType
    | ErrorIllegalNumber
    | ErrorIllegalSimpleType
    | ErrorNoMoreStringChunks
    | ErrorUnknownSimpleType
    | ErrorUnknownTag
    | ErrorInappropriateTagForType
    | ErrorDuplicateObjectKeys
    | ErrorInvalidUtf8TextString
    | ErrorExcludedType
    | ErrorImproperValue
    | ErrorOverlongEncoding
    | ErrorMapKeyNotString
    | ErrorMapNotSorted
    | ErrorMapKeysNotUnique
    | ErrorTooManyItems
    | ErrorTooFewItems
    | ErrorDataTooLarge
    | ErrorNestingTooDeep
    | ErrorUnsupportedType
    | ErrorUnimplementedValidation
    | ErrorJsonObjectKeyIsAggregate
    | ErrorJsonObjectKeyNotString
    | ErrorJsonNotImplemented
    | ErrorOutOfMemory
    | ErrorInternalError
    | OtherCode(code: int)

  /** True of the codes that are enumerators of the C enum. */
  predicate Named(e: CborError) {
    !e.OtherCode?
  }

  // The messages of the table, one constant per distinct message.
  const UnknownMessage: string := "unknown error"
  const MsgOutOfMemory: string := "out of memory/need more memory"
  const MsgUnknownLength: string := "unknown length (attempted to get the length of a map/array/string of indeterminate length"
  const MsgAdvancePastEOF: string := "attempted to advance past EOF"
  const MsgIO: string := "I/O error"
  const MsgGarbageAtEnd: string := "garbage after the end of the content"
  const MsgUnexpectedEOF: string := "unexpected end of data"
  const MsgUnexpectedBreak: string := "unexpected 'break' byte"
  const MsgUnknownType: string := "illegal byte (encodes future extension type)"
  const MsgIllegalType: string := "mismatched string type in chunked string"
  const MsgIllegalNumber: string := "illegal initial byte (encodes unspecified additional information)"
  const MsgIllegalSimpleType: string := "illegal encoding of simple type smaller than 32"
  const MsgNoMoreStringChunks: string := "no more byte or text strings available"
  const MsgUnknownSimpleType: string := "unknown simple type"
  const MsgUnknownTag: string := "unknown tag"
  const MsgInappropriateTagForType: string := "inappropriate tag for type"
  const MsgDuplicateObjectKeys: string := "duplicate keys in object"
  const MsgInvalidUtf8TextString: string := "invalid UTF-8 content in string"
  const MsgExcludedType: string := "excluded type found"
  const MsgImproperValue: string := "excluded value found"
  const MsgOverlongEncoding: string := "value encoded in non-canonical form"
  const MsgMapKeyNotString: string := "key in map is not a string"
  const MsgMapNotSorted: string := "map is not sorted"
  const MsgMapKeysNotUnique: string := "map keys are not unique"
  const MsgTooManyItems: string := "too many items added to encoder"
  const MsgDataTooLarge: string := "internal error: data too large"
  const MsgNestingTooDeep: string := "internal error: too many nested containers found in recursive function"
  const MsgUnsupportedType: string := "unsupported type"
  const MsgUnimplementedValidation: string := "validation not implemented for the current parser state"
  const MsgJsonObjectKeyIsAggregate: string := "conversion to JSON failed: key in object is an array or map"
  const MsgJsonNotImplemented: string := "conversion to JSON failed: open_memstream unavailable"
  const MsgInternalError: string := "internal error"

  /**
   * The message table as the if/else chain in the repository has it. It has
   * no branch for ErrorTooFewItems, which therefore falls through to the
   * fallback like an unnamed code.
   */
  function ErrorStringAsWritten(e: CborError): (r: string)
    ensures (r == "") <==> e == NoError
    ensures !e.OtherCode? && e != UnknownError && e != ErrorTooFewItems ==> r != UnknownMessage
    ensures e.OtherCode? || e == ErrorTooFewItems ==> r == UnknownMessage
    ensures e == ErrorOutOfMemory ==> r == MsgOutOfMemory
    ensures e == ErrorMapKeyNotString || e == ErrorJsonObjectKeyNotString ==> r == MsgMapKeyNotString
    decreases if e == UnknownError then 0 else 1
  {
    match e
    case NoError => ""
    case UnknownError => UnknownMessage
    case ErrorOutOfMemory => MsgOutOfMemory
    case ErrorUnknownLength => MsgUnknownLength
    case ErrorAdvancePastEOF => MsgAdvancePastEOF
    case ErrorIO => MsgIO
    case ErrorGarbageAtEnd => MsgGarbageAtEnd
    case ErrorUnexpectedEOF => MsgUnexpectedEOF
    case ErrorUnexpectedBreak => MsgUnexpectedBreak
    case ErrorUnknownType => MsgUnknownType
    case ErrorIllegalType => MsgIllegalType
    case ErrorIllegalNumber => MsgIllegalNumber
    case ErrorIllegalSimpleType => MsgIllegalSimpleType
    case ErrorNoMoreStringChunks => MsgNoMoreStringChunks
    case ErrorUnknownSimpleType => MsgUnknownSimpleType
    case ErrorUnknownTag => MsgUnknownTag
    case ErrorInappropriateTagForType => MsgInappropriateTagForType
    case ErrorDuplicateObjectKeys => MsgDuplicateObjectKeys
    case ErrorInvalidUtf8TextString => MsgInvalidUtf8TextString
    case ErrorExcludedType => MsgExcludedType
    case ErrorImproperValue => MsgImproperValue
    case ErrorOverlongEncoding => MsgOverlongEncoding
    case ErrorMapKeyNotString | ErrorJsonObjectKeyNotString => MsgMapKeyNotString
    case ErrorMapNotSorted => MsgMapNotSorted
    case ErrorMapKeysNotUnique => MsgMapKeysNotUnique
    case ErrorTooManyItems => MsgTooManyItems
    case ErrorDataTooLarge => MsgDataTooLarge
    case ErrorNestingTooDeep => MsgNestingTooDeep
    case ErrorUnsupportedType => MsgUnsupportedType
    case ErrorUnimplementedValidation => MsgUnimplementedValidation
    case ErrorJsonObjectKeyIsAggregate => MsgJsonObjectKeyIsAggregate
    case ErrorJsonNotImplemented => MsgJsonNotImplemented
    case ErrorInternalError => MsgInternalError
    case ErrorTooFewItems | OtherCode(_) => ErrorStringAsWritten(UnknownError)
  }

  /** The message the documentation of ErrorTooFewItems calls for. */
  const MsgTooFewItems: string := "too few items added to encoder"

  /**
   * The table with the branch for ErrorTooFewItems that its documentation
   * implies, worded like its ErrorTooManyItems neighbour: every named code
   * other than UnknownError now has a message other than "unknown error".
   */
  function ErrorString(e: CborError): (r: string)
    ensures (r == "") <==> e == NoError
    ensures Named(e) && e != UnknownError ==> r != UnknownMessage
    ensures !Named(e) ==> r == UnknownMessage
    ensures e == ErrorOutOfMemory ==> r == MsgOutOfMemory
    ensures e == ErrorMapKeyNotString || e == ErrorJsonObjectKeyNotString ==> r == MsgMapKeyNotString
  {
    if e == ErrorTooFewItems then MsgTooFewItems
    else ErrorStringAsWritten(e)
  }

  /**
   * The map-key and JSON-object-key codes share one message, in the table as
   * written and in the corrected one; out of memory has its own.
   */
  lemma SharedKeyMessage()
    ensures ErrorStringAsWritten(ErrorMapKeyNotString) == ErrorStringAsWritten(ErrorJsonObjectKeyNotString) == MsgMapKeyNotString
    ensures ErrorString(ErrorMapKeyNotString) == ErrorString(ErrorJsonObjectKeyNotString) == MsgMapKeyNotString
    ensures ErrorString(ErrorOutOfMemory) == MsgOutOfMemory != MsgMapKeyNotString
  {
  }

  /** The table as written gives ErrorTooFewItems the fallback message. */
  lemma TooFewItemsFallsThroughAsWritten()
    ensures ErrorStringAsWritten(ErrorTooFewItems) == ErrorStringAsWritten(UnknownError)
    ensures ErrorString(ErrorTooFewItems) != ErrorString(UnknownError)
  {
  }

  /**
   * A code the table does not name gets exactly the message of UnknownError:
   * the fallback's self-call ends after one step (see the decreases clause
   * of ErrorStringAsWritten).
   */
  lemma UnnamedFallsBack(e: CborError)
    requires !Named(e)
    ensures ErrorString(e) == ErrorString(UnknownError) == UnknownMessage
  {
  }
}
