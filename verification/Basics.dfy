/** Small vocabulary shared by the modules of this project. */
module Basics {
  /** An optional value: the source's `T | undefined`. */
  datatype Option<+T> = None | Some(value: T)

  /** `text.includes(part)`. */
  predicate Contains(text: string, part: string) { part <= text || (text != "" && Contains(text[1..], part)) }
}
