/** The frames that travel from the render workers to the encoder. */
module Frames {

  newtype Byte = x: int | 0 <= x < 256

  type Bytes = seq<Byte>

  /** A frame sequenced for the writer: its number, its file, its captured bytes. */
  datatype FrameInOrder = FrameInOrder(frame: int, path: string, bytes: Bytes)
}
