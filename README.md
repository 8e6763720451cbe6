# Trace-context propagation over HTTP, gRPC and Kafka

This project is a Dafny model of `pkg/tracing/utils.go`, the tracing helper package of a CQRS
microservice system. The package moves an opentracing span context between services over three
transports: HTTP request headers, gRPC metadata and Kafka message headers. Each transport has its
own metadata shape. The package converts that shape to and from the transport-neutral
`TextMapCarrier` (one string value per string key). When a request arrives, it asks the tracer to
extract an upstream context from the carrier. If extraction fails, it starts a root span.
Otherwise it starts a server-side child span.

Files:

- `wrappers.dfy`: `Option` and `Result`, standing in for Go's `(value, error)` returns.
- `types.dfy`: the shared types.
  - Go strings and byte slices, both as `seq<byte>`. Go's `[]byte(s)` and `string(b)` copy bytes unchanged.
  - The carrier, Kafka headers, and gRPC/HTTP metadata.
  - The tracer, passed in as an explicit `Tracer` value.
  - `context.Context`, as layers on top of a base context.
- `grpc_metadata.dfy`: `GetTextMapCarrierFromMetaData`.
- `kafka_headers.dfy`:
  - headers to carrier, where the last header with a key wins;
  - carrier to headers, one header per entry in map order;
  - the round trip between those two;
  - the search for the reserved `"tracing"` header.
- `spans.dfy`:
  - the root-or-child fallback, defined once;
  - the three span starters;
  - gRPC injection;
  - two end-to-end lemmas that connect the producer side to the consumer side.

How the model represents the source:

- **Map iteration order.** A Go `range` over a map has no fixed order. The methods model it by picking an arbitrary unvisited key (`:|`). So the loop invariants and each method's `ensures` hold for every possible order.
- **Opaque parts.** The tracer, the JSON codec and spans are opaque. `Tracer` holds these operations as function-valued fields:
  - `Extract` in the HTTPHeaders format;
  - `Extract` in the TextMap format;
  - `Inject`.
- **Json decoding.** `TextMapCarrierFromBinary` (`json.Unmarshal`) is the `decode` parameter of `TextMapCarrierFromKafkaHeaders`.
- **Spans.** A started span is recorded as the arguments given to `StartSpan`: the operation name and the option list. `ext.RPCServerOption(spanCtx)` is `RPCServerOption(spanCtx)`. A root span is one started with no options.

The package has two Kafka encodings, and the consumer and producer use the per-key one:

- `StartKafkaConsumerTracerSpan` extracts from `TextMapCarrierFromKafkaMessageHeaders`. That gives one carrier entry per distinct header key, the last header with that key winning, with keys compared case-sensitively. It does not use the reserved-header search `TextMapCarrierFromKafkaHeaders`.
- `TextMapCarrierToKafkaMessageHeaders` writes one header per carrier entry, not a single encoded `"tracing"` header.
- Nothing in utils.go calls `TextMapCarrierFromKafkaHeaders` or `TextMapCarrierToBinary`. The reserved-header search is modelled as its own operation.
- The per-key pair is consistent with itself: `Spans.KafkaConsumerExtractsProducedCarrier` shows that a consumer hands the tracer exactly the carrier the producer wrote.

## Model

| member | source | states |
|---|---|---|
| GrpcMetadata.GetTextMapCarrierFromMetaData | pkg/tracing/utils.go:29-37 | With no incoming metadata the carrier is empty. Otherwise it has exactly the metadata's keys, each mapped to element 0 of its value list, for every key visiting order. It requires every list to be non-empty, because `[0]` panics otherwise. |
| GrpcMetadata.FirstValueWins | pkg/tracing/utils.go:33 | A key with values `[a, b]` yields the carrier entry `a` alone (first value wins). |
| KafkaHeaders.HeadersToMapKeys | pkg/tracing/utils.go:111-117 | The carrier built from headers has exactly the headers' keys, compared byte for byte. |
| KafkaHeaders.HeadersToMapLastWins | pkg/tracing/utils.go:113-115 | A key's value is the value of the last header with that key. |
| KafkaHeaders.TextMapCarrierFromKafkaMessageHeaders | pkg/tracing/utils.go:111-117 | The loop's result equals the in-order assignment `HeadersToMap` of all headers, so the key-set and last-write-wins lemmas above describe it. |
| KafkaHeaders.KeysAreCaseSensitive | pkg/tracing/utils.go:114 | `Tracing` and `tracing` both match the reserved key up to case, yet they become two separate carrier entries. |
| KafkaHeaders.AppendHeader | pkg/tracing/utils.go:99-104 | Appending the header of one more entry, whose key was not yet written, keeps the list one-header-per-written-key with distinct keys. |
| KafkaHeaders.TextMapCarrierToKafkaMessageHeaders | pkg/tracing/utils.go:96-109 | For every entry order, the result has one header per carrier entry. Its length is the carrier's size. Its keys are pairwise distinct. Each header holds its entry's value bytes. Because the callback never fails, the full list is returned; the source's error branch (utils.go:105-107) returns the same variable. |
| KafkaHeaders.HeaderListIsPermutation | pkg/tracing/utils.go:96-109 | Any header list the method may return is a permutation (equal multisets) of the carrier's entries, so only the order is left open. |
| KafkaHeaders.KafkaRoundTrip | pkg/tracing/utils.go:96-117 | Reading back the headers written for a carrier gives exactly that carrier. |
| KafkaHeaders.TextMapCarrierFromKafkaHeaders | pkg/tracing/utils.go:83-94 | The linear search with early return computes the first-reserved-header outcome `TracingHeaderResult`. |
| KafkaHeaders.MissingTracingHeader | pkg/tracing/utils.go:84-93 | The result is the "no tracing headers provided" error exactly when no header key equals `tracing` up to ASCII case. |
| KafkaHeaders.FirstTracingHeaderDecides | pkg/tracing/utils.go:84-91 | Only the first matching header is decoded. A decode failure becomes the returned error, with no carrier and no further search. |
| KafkaHeaders.LaterHeadersIgnored | pkg/tracing/utils.go:84-91 | Once a list holds a matching header, appending more headers does not change the result. |
| Spans.StartServerSpan | pkg/tracing/utils.go:15-27 | Exactly one span is started, under the given name. It is a root span exactly when extraction failed, and otherwise carries `RPCServerOption` of the extracted context. It becomes the active span of a context whose parent is the input context, which keeps the input's base context and metadata. |
| Spans.StartHttpServerTracerSpan | pkg/tracing/utils.go:15-27 | It starts a root span exactly when HTTPHeaders extraction from the request headers fails, and otherwise a server child. The span is attached to a context derived from the request's context. |
| Spans.StartGrpcServerTracerSpan | pkg/tracing/utils.go:39-53 | The same fallback, applied to TextMap extraction from the first-value carrier of the incoming metadata. |
| Spans.StartKafkaConsumerTracerSpan | pkg/tracing/utils.go:55-69 | The same fallback, applied to TextMap extraction from the per-key header carrier. |
| Spans.InjectTextMapCarrier | pkg/tracing/utils.go:119-125 | It fails exactly when Inject into a fresh carrier reports an error, and then returns no carrier. Otherwise it returns the carrier Inject wrote. |
| Spans.InjectTextMapCarrierToGrpcMetaData | pkg/tracing/utils.go:127-133 | When injection fails, the input context comes back unchanged. Otherwise the result is a child of that context whose outgoing metadata is the injected carrier. Either way the base context, incoming metadata and active span are unchanged. |
| Spans.KafkaConsumerExtractsProducedCarrier | pkg/tracing/utils.go:56-58 | A consumer whose headers were written from a carrier starts the same span as extraction from that carrier would. |
| Spans.GrpcServerExtractsInjectedCarrier | pkg/tracing/utils.go:40-42 | If the incoming metadata holds an injected carrier whose keys have no upper-case ASCII letters, one value per key, the server hands the tracer exactly that carrier. |

## Left out

- The opentracing tracer. `Extract`, `Inject` and `StartSpan` are opaque and are passed in as a `Tracer` value. Sampling, span identifiers, timing and span finishing are not modelled.
- The JSON codec. `TextMapCarrierToBinary` and `TextMapCarrierFromBinary` (pkg/tracing/utils.go:71-81) wrap `encoding/json`, which is foreign code. Decoding is the abstract `decode` parameter. No JSON round trip is claimed.
- Case folding. `strings.EqualFold` is modelled with ASCII case folding on bytes. That matches Go's result when the key being compared is the all-lowercase-ASCII `"tracing"`, because none of its letters has a non-ASCII simple-folding partner. Unicode folding tables are not modelled.
- Library key lowercasing. `metadata.FromIncomingContext` copies the incoming metadata and lowercases its keys, so two stored keys that differ only in case merge into one. `md.Get` and `metadata.New` lowercase keys too, and `metadata.New` also wraps each value in a list. The model assumes the stored incoming keys are already lowercase, so this lowercasing changes nothing and `md.Get(key)` is a plain lookup. On the outgoing side it stores the injected carrier itself as the outgoing metadata.
- Framework plumbing. The echo request object becomes `HttpRequest` (its header map and its context). Contexts are values. Deadlines, cancellation and `context.WithValue` keys are reduced to the layers of `Context`.
- Tracer context hooks. `opentracing.ContextWithSpan` first passes the context through the tracer's `ContextWithSpanHook` when the tracer implements `TracerContextWithSpan`. The model assumes a tracer without that hook, so the span's context layer sits directly on the input context (`s.ctx.parent == ctx` in the starters).
- Concurrency. Calls share no state, and the global tracer is synchronised outside this package.

The source's panic on an empty metadata value list becomes the precondition `GrpcMetadata.FlattenableIncoming`. The slice capacity hints passed to `make` have no effect on results and are not modelled.
