/** What the reader finds when a frame names a stream. */
module StreamLookups {

  /** `Gone` is ErrClosedStream, `Unknown` is ErrUnknownStream, and `Connection` the stream ID zero. */
  datatype StreamLookup = Present | Gone | Unknown | Connection
}
