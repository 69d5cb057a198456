/** Optional values: a NULL column, an absent JSON field, or a lookup that found nothing. */
module Wrappers {
  datatype Option<+T> = None | Some(value: T)
}
