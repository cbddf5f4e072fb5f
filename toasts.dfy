/** The notifications the pages raise, recorded as an outcome value: which
    of `toast.success`, `toast.info` or `toast.error` is called, and with
    what text. */
module Toasts {
  datatype Toast = Success(text: string) | Info(text: string) | Failure(text: string)
}
