/** Go `error` values, as far as the model needs them. */
module Errors {

  /**
   * An error either originates somewhere (`Cause`, e.g. a transport error or
   * `context.DeadlineExceeded`) or wraps another one with `fmt.Errorf("<context>: %w", inner)`.
   */
  datatype Error = Cause(text: string) | Wrapped(context: string, inner: Error)
  {
    /** The string `err.Error()` returns. */
    function Message(): string
    {
      match this
      case Cause(text) => text
      case Wrapped(context, inner) => context + ": " + inner.Message()
    }

    /** `errors.Is`: the chain of wrapped errors reaches `target`. */
    predicate Is(target: Error)
    {
      this == target || (Wrapped? && inner.Is(target))
    }
  }
}
