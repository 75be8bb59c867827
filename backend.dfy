/** The text-generation backend, seen from the agent: one prompt and a
    sampling temperature in, one reply out. The client itself (provider
    selection, the network, batching) is not part of this model; a backend is
    any total function of this shape, so every lemma about the agent holds for
    every backend. */
module Backend {
  import opened Maybe

  /** What one call of the backend gives back: it raises, or it returns a
      reply that may be `None`. */
  datatype Generated = Raised | Returned(reply: Option<string>)

  /** `client.generate([prompt], temperature)[0]`. */
  type Generate = (string, real) -> Generated
}
