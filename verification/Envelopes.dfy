/**
 What the feed hands from its push callbacks through the dispatcher to a sink.
 */
module Envelopes {
  datatype Envelope = Envelope(topic: string, key: string, payload: string, tsNs: int)
}
