/**
 * The absent-or-present value used wherever the script may find nothing:
 * an unmatched regular expression, a missing history, an unrendered footer.
 */
module Options {
  datatype Option<+T> = None | Some(value: T)
}
