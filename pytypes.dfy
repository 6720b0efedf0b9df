/** Values shared by every module of the model: the Python exceptions the
    library can raise, Python's optional values, and the two kinds of
    argument the identifier functions accept (an int or its decimal text). */
module PyTypes {

  /** Python's `None` or a value. */
  datatype Option<T> = None | Some(value: T)

  /** The exceptions raised by the core. `Raised` is a bare `Exception(msg)`. */
  datatype PyError =
    | ValueError
    | TypeError
    | IndexError
    | KeyError(key: string)
    | AttributeError(name: string)
    | Raised(message: string)

  /** A call either returns a value or raises. */
  datatype Result<T> = Success(value: T) | Failure(error: PyError)

  /** An identifier as the caller hands it over: a Python int or a Python str. */
  datatype Arg = IntArg(n: int) | StrArg(s: string)

  /** A decoded image as numpy holds it: the array's shape and its values
      in row-major order. `plt.imread` gives a colour JPEG the shape
      (height, width, 3) and a grayscale one the shape (height, width). */
  datatype Pixels = Pixels(shape: seq<nat>, values: seq<int>)

  /** `data[:,:,k]` is defined: the array has a third axis longer than `k`.
      On any other array numpy raises IndexError. */
  predicate HasChannel(p: Pixels, k: nat)
  {
    |p.shape| >= 3 && k < p.shape[2]
  }
}
