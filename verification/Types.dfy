/** Values shared by every part of the gateway. */
module Types {

  datatype Option<+T> = None | Some(value: T)

  datatype Message = Message(role: string, content: string)

  /** An inbound request: the fields the gateway logic reads. */
  datatype ChatRequest = ChatRequest(
    requestId: string,
    apiKey: string,
    model: string,
    messages: seq<Message>,
    temperature: real,
    maxTokens: int,
    stream: bool)

  datatype ChatResponse = ChatResponse(
    requestId: string,
    model: string,
    provider: string,
    content: string,
    promptTokens: int,
    completionTokens: int,
    totalTokens: int,
    latencyMs: real,
    costUsd: real,
    fromCache: bool)

  /** A provider/model pair, and the key it has in the price table. */
  datatype Offer = Offer(provider: string, model: string)

  datatype Pricing = Pricing(inputPer1k: real, outputPer1k: real)

  function PriceKey(o: Offer): string {
    o.provider + ":" + o.model
  }

  function Min(a: int, b: int): int {
    if a <= b then a else b
  }

  // Clock readings are integer nanoseconds.
  const NANOS: int := 1_000_000_000
}
