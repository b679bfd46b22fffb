/** Optional values: a JavaScript `null`/`undefined` field, or a lookup that found nothing. */
module Options {

  datatype Option<+T> = None | Some(value: T)

}
