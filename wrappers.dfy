/** Failure-carrying return types shared by every module of the model.
    The modelled code reports failures by raising (Python) or throwing (C++);
    the model returns them as values instead. */
module Wrappers {

  datatype Option<+T> = None | Some(value: T)

  /** An exception raised or thrown by the modelled code. */
  datatype Exception =
    | ValueError(message: string)   // `raise ValueError(message)` in the Python source
    | EnumValueError(value: int)    // ValueError from calling an Enum with a value it does not have
    | NotInSequence                 // ValueError from `list.index` / `str.index` on an absent item
    | KeyError                      // dictionary or Enum-name lookup of a missing key
    | IndexError                    // list index out of range
    | AttributeError                // a missing attribute: one of None, or `index` of a dict view
    | Thrown(what: string)          // C++ exception carrying this message

  datatype Result<+T> = Ok(value: T) | Err(error: Exception)

  /** The outcome of an operation that returns nothing on success. */
  datatype Outcome = Pass | Fail(error: Exception)
}

/** The few kinds of Python value the modelled code inspects with `isinstance`
    or stores in lists whose element type it does not fix (notch lists). */
module PyValues {
  import PyDicts

  datatype PyValue =
    | PyInt(i: int)              // an int
    | PyStr(s: string)           // a str
    | PyDict(d: PyDicts.Dict)    // a dict from int to int
    | PyEnum(value: int)         // a member of the RotorContact enumeration
    | PyOther                    // any other object

  /** Python's `str(n)` for a natural number. */
  function NatToString(n: nat): (s: string)
    ensures |s| >= 1
    ensures forall i :: 0 <= i < |s| ==> '0' <= s[i] <= '9'
  {
    if n < 10 then [('0' as int + n) as char]
    else NatToString(n / 10) + [('0' as int + n % 10) as char]
  }

  /** Python's `str(i)` for an int. */
  function IntToString(i: int): (s: string)
    ensures |s| >= 1
  {
    if i < 0 then "-" + NatToString(-i) else NatToString(i)
  }
}
