/** One component of a storage key, and the keys made of them. */
module Segments {
  datatype Segment = Str(text: string) | Int(number: int)

  type Key = seq<Segment>
}
