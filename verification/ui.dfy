/**
 * Side effects a handler asks the browser for, returned as values: toasts,
 * client-side navigation, full reloads, router refreshes and alerts.
 */
module Ui {

  datatype Effect =
    | ToastSuccess(text: string)
    | ToastError(text: string)
      /** A neutral toast (`toast(...)` with an icon). */
    | ToastNotice(text: string)
      /** A pending toast (`toast.loading`) that a later toast replaces. */
    | ToastLoading(text: string)
      /** `router.push(path)` */
    | Navigate(path: string)
      /** `window.location.href = path` after a timer. */
    | NavigateLater(path: string)
      /** `window.location.reload()` */
    | Reload
      /** `router.refresh()` */
    | Refresh
      /** `alert(text)` */
    | Alert(text: string)

  /** True when some effect moves the browser to another page. */
  predicate Navigates(effects: seq<Effect>) {
    exists i :: 0 <= i < |effects| && (effects[i].Navigate? || effects[i].NavigateLater?)
  }

  /** True when some effect is an error toast. */
  predicate ReportsError(effects: seq<Effect>) {
    exists i :: 0 <= i < |effects| && effects[i].ToastError?
  }
}
