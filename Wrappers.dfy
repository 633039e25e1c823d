/** The optional value returned by `str::parse` (its `Ok`/`Err` collapsed to
    `Some`/`None`) and by the menu dispatchers (no choice means re-prompt). */
module Wrappers {

  datatype Option<+T> = None | Some(value: T)
}
