/** Option and Result, the two failure-carrying shapes the Rust source uses. */
module Wrappers {

  datatype Option<+T> = None | Some(value: T)

  /** A Rust `panic!` or a failed `unwrap()` is a `Panic`, with the reason. */
  datatype Result<+T, +E> = Ok(value: T) | Panic(reason: E)
}

/** Why the source panics at a given point (an `unwrap()` on None or an explicit `panic!`). */
module Panics {
  datatype Reason =
    | WrongIndexCount           // model::Wireframe::set_property on a list that is not a triangle
    | MissingElement(name: string) // `header.elements.get(..).unwrap()`
    | WriteOutOfBounds          // wgpu rejects a write past the end of a buffer
    | QueueNotSet               // `QUEUE.get().unwrap()`
    | HeaderUnreadable          // `read_header(..).unwrap()`
    | FrameOutOfRange           // `caps["frame"].parse::<u32>().unwrap()`
    | UnnamedEvent              // `event.name.unwrap()`
}
