/** What a decoder can report, and the shape of one read step. */
module DecodeErrors {
  import opened Bytes

  /** `frame/decode.rs`: the three ways decoding a frame fails. */
  datatype DecodeError =
    | InComplete
    | UnrecognizedFrameType(frameType: u16)
    | InvalidStreamId(expected: string, found: u32)

  datatype Result<T> = Ok(value: T) | Err(error: DecodeError)

  /**
   * The outcome of one read against a cursor: what it returned and the bytes it
   * left unconsumed. A read that fails part-way leaves the cursor where the
   * failing sub-read found it, as the source's `?` chains do.
   */
  datatype Step<T> = Step(result: Result<T>, rest: seq<byte>)

  /** Passes a failure on to a caller that expected another result type. */
  function Fail<A, B>(st: Step<A>): (r: Step<B>)
    requires st.result.Err?
    ensures r.result.Err? && r.result.error == st.result.error && r.rest == st.rest
  {
    Step(Err(st.result.error), st.rest)
  }
}
