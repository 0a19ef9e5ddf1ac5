/** Go channels as values. */
module Channels {

  /** The queued values, and whether the channel has been closed. */
  datatype Chan<T> = Chan(buf: seq<T>, closed: bool)
}
