/** The optional value returned by the queue's `next` (Java's `Optional<String>`). */
module Options {

  datatype Option<+T> = None | Some(value: T)
}
