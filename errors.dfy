/**
  The crate's error type (`WindowsFontError`), its text, and its translation
  into Python exceptions; plus `Failure`, the error carried by the crate's
  `anyhow::Result` functions.
*/
module Errors {
  import opened Handles

  /** The Python exception classes the crate raises. */
  datatype ExceptionKind =
    | OSError | RuntimeError | KeyError | IndexError | TypeError | ValueError | OverflowError

  /** A `PyErr`: an exception class and its message. */
  datatype PyErr = PyErr(kind: ExceptionKind, message: string)

  /** `WindowsFontError`. */
  datatype WindowsFontError =
    | WindowsErr(err: NativeError)
    | Windows10Needed(msg: string)
    | KeyNotFound(msg: string)

  /** The `Display` text that `thiserror` derives for each variant. */
  function Display(e: WindowsFontError): string
  {
    match e
    case WindowsErr(err) => err.message
    case Windows10Needed(msg) => msg
    case KeyNotFound(msg) => msg + " doesn't exist"
  }

  /** `From<WindowsFontError> for PyErr`. */
  function ToPyErr(e: WindowsFontError): (p: PyErr)
    ensures p.kind == OSError <==> e.WindowsErr?
    ensures p.kind == RuntimeError <==> e.Windows10Needed?
    ensures p.kind == KeyError <==> e.KeyNotFound?
    ensures e.WindowsErr? ==> p.message == e.err.message
    ensures !e.WindowsErr? ==> p.message == e.msg
  {
    match e
    case WindowsErr(err) => PyErr(OSError, err.message)
    case Windows10Needed(msg) => PyErr(RuntimeError, msg)
    case KeyNotFound(msg) => PyErr(KeyError, msg)
  }

  /**
    What an `anyhow::Error` inside the crate can hold: a Python exception
    (raised through `bail!`), a bare native error, a native error with a
    context message attached, a `WindowsFontError`, or an ad-hoc message.
  */
  datatype Failure =
    | Raised(py: PyErr)
    | Native(native: NativeError)
    | Context(context: string, native: NativeError)
    | FontError(font: WindowsFontError)
    | Message(text: string)

  /**
    `From<anyhow::Error> for WindowsFontError`: downcasting to the native error
    type succeeds for a native error, with or without context; any other
    error panics, so the conversion is only defined for those two.
  */
  function FromAnyhow(a: Failure): (e: WindowsFontError)
    requires a.Native? || a.Context?
    ensures e.WindowsErr? && e.err == a.native
    ensures ToPyErr(e) == PyErr(OSError, a.native.message)
  {
    WindowsErr(a.native)
  }

  /** The error raised as a Python exception when a native call fails inside a `PyResult` function. */
  function NativeToPy(err: NativeError): Failure
  {
    Raised(ToPyErr(WindowsErr(err)))
  }

  /**
    The Python message agrees with the `Display` text except for
    `KeyNotFound`, whose `KeyError` carries the bare key while the text adds
    " doesn't exist".
  */
  lemma PyMessageVersusDisplay(e: WindowsFontError)
    ensures !e.KeyNotFound? ==> ToPyErr(e).message == Display(e)
    ensures e.KeyNotFound? ==> Display(e) == ToPyErr(e).message + " doesn't exist"
  {
  }

  /** Distinct variants become distinct exception classes, so the class alone tells them apart. */
  lemma ToPyErrKindsDistinct(a: WindowsFontError, b: WindowsFontError)
    ensures ToPyErr(a).kind == ToPyErr(b).kind <==>
      (a.WindowsErr? && b.WindowsErr?) || (a.Windows10Needed? && b.Windows10Needed?) || (a.KeyNotFound? && b.KeyNotFound?)
  {
  }

  /**
    Converting a native error to an anyhow error and back to a
    `WindowsFontError` gives the same result as the `#[from]` conversion.
  */
  lemma FromAnyhowRoundTrip(err: NativeError, context: string)
    ensures FromAnyhow(Native(err)) == WindowsErr(err)
    ensures FromAnyhow(Context(context, err)) == WindowsErr(err)
  {
  }

  /** Two errors raise the same Python exception only if they carry the same text, and the last two variants are recovered exactly. */
  lemma ToPyErrInjective(a: WindowsFontError, b: WindowsFontError)
    requires ToPyErr(a) == ToPyErr(b)
    ensures Display(a) == Display(b)
    ensures !a.WindowsErr? ==> a == b
  {
  }
}
