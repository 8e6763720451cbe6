/**
 * The values that pkg/tracing/utils.go passes around: Go strings and byte
 * slices, the opentracing text-map carrier, Kafka headers, gRPC metadata,
 * request contexts, and the global tracer, which this model receives as an
 * explicit argument instead of looking it up.
 */
module TracingTypes {
  import opened Wrappers

  newtype byte = x: int | 0 <= x < 256

  /**
   * A Go `string` and a Go `[]byte` are both sequences of bytes; the
   * conversions `[]byte(s)` and `string(b)` copy the bytes unchanged, so one
   * type models both.
   */
  type Bytes = seq<byte>

  /** The bytes Go stores for an ASCII string literal. */
  function Ascii(s: string): (b: Bytes)
    requires forall i :: 0 <= i < |s| ==> s[i] < 128 as char
    ensures |b| == |s|
    ensures forall i :: 0 <= i < |s| ==> b[i] as int == s[i] as int
  {
    if s == [] then [] else [s[0] as int as byte] + Ascii(s[1..])
  }

  /** opentracing.TextMapCarrier: one string value per string key. */
  type Carrier = map<Bytes, Bytes>

  /** A kafka-go message header. Several headers of one message may share a key. */
  datatype Header = Header(key: Bytes, value: Bytes)

  /** gRPC metadata.MD, and equally net/http's Header: each key has a list of values. */
  type Metadata = map<Bytes, seq<Bytes>>

  /** ASCII upper-case letters ('A' = 65 .. 'Z' = 90) mapped to lower case. */
  function ToLowerAscii(b: byte): byte
  {
    if 65 <= b <= 90 then b + 32 else b
  }

  /** strings.EqualFold restricted to ASCII case folding. */
  predicate EqualFold(s: Bytes, t: Bytes)
  {
    |s| == |t| && forall i :: 0 <= i < |s| ==> ToLowerAscii(s[i]) == ToLowerAscii(t[i])
  }

  /** The reserved message-header key that carries an encoded carrier. */
  const TracingHeaderKey: Bytes := Ascii("tracing")

  predicate IsTracingKey(key: Bytes)
  {
    EqualFold(key, TracingHeaderKey)
  }

  /* ----- The tracer (opentracing.GlobalTracer()) ----- */

  /** An upstream span context, opaque to this package. */
  datatype SpanContext = SpanContext(token: nat)

  /** An error returned by the tracer's Extract or Inject. */
  datatype TracerError = TracerError(code: nat)

  /** A StartSpan option; ext.RPCServerOption makes the span a server-side child of `client`. */
  datatype SpanOption = RPCServerOption(client: SpanContext)

  /** A started span, identified by the arguments StartSpan was given. */
  datatype Span = Span(operationName: Bytes, options: seq<SpanOption>)
  {
    /** A root span is one started with no options, hence with no parent. */
    predicate IsRoot() { options == [] }
  }

  /**
   * The tracer's behaviour as seen by this package: Extract in the
   * HTTPHeaders format (over a request's header map) and in the TextMap
   * format (over a carrier), and Inject into a carrier, which yields the
   * carrier as written together with the error Inject returned, if any.
   */
  datatype Tracer = Tracer(
    extractHttp: Metadata -> Result<SpanContext, TracerError>,
    extractTextMap: Carrier -> Result<SpanContext, TracerError>,
    inject: (SpanContext, Carrier) -> (Carrier, Option<TracerError>))

  /* ----- context.Context ----- */

  /**
   * A request context. Each derived context wraps its parent and adds one
   * value; deadlines and cancellation come from the innermost Background.
   */
  datatype Context =
    | Background(id: nat)
    | WithIncomingMetadata(parent: Context, incoming: Metadata)
    | WithOutgoingMetadata(parent: Context, outgoing: Carrier)
    | WithActiveSpan(parent: Context, span: Span)

  /** The context whose deadline and cancellation `ctx` inherits. */
  function Base(ctx: Context): (b: Context)
    ensures b.Background?
  {
    if ctx.Background? then ctx else Base(ctx.parent)
  }

  /**
   * The nearest incoming metadata, if any. This stands for
   * metadata.FromIncomingContext on metadata whose keys are already lower
   * case, for which its copy-and-lowercase step changes nothing.
   */
  function IncomingMetadata(ctx: Context): Option<Metadata>
  {
    match ctx
    case Background(_) => None
    case WithIncomingMetadata(_, md) => Some(md)
    case WithOutgoingMetadata(p, _) => IncomingMetadata(p)
    case WithActiveSpan(p, _) => IncomingMetadata(p)
  }

  /** The nearest outgoing metadata, if any. */
  function OutgoingMetadata(ctx: Context): Option<Carrier>
  {
    match ctx
    case Background(_) => None
    case WithIncomingMetadata(p, _) => OutgoingMetadata(p)
    case WithOutgoingMetadata(_, c) => Some(c)
    case WithActiveSpan(p, _) => OutgoingMetadata(p)
  }

  /** opentracing.SpanFromContext: the nearest active span, if any. */
  function ActiveSpan(ctx: Context): Option<Span>
  {
    match ctx
    case Background(_) => None
    case WithIncomingMetadata(p, _) => ActiveSpan(p)
    case WithOutgoingMetadata(p, _) => ActiveSpan(p)
    case WithActiveSpan(_, s) => Some(s)
  }

  /** The echo request as this package reads it: its header map and its context. */
  datatype HttpRequest = HttpRequest(header: Metadata, ctx: Context)
}
