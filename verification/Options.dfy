/** Values that may be absent. */
module Options {

  datatype Option<T> = None | Some(value: T) {
    function Or(default: T): T {
      if Some? then value else default
    }
  }
}
