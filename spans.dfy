/**
 * The span starters and the gRPC injection of pkg/tracing/utils.go. All
 * three starters share one decision: when the tracer cannot extract an
 * upstream span context they start a root span, otherwise a server-side
 * child of the extracted context. Either way exactly one span is started
 * and attached to a context derived from the request's own.
 */
module Spans {
  import opened Wrappers
  import opened TracingTypes
  import GrpcMetadata
  import KafkaHeaders

  /** The (context.Context, opentracing.Span) pair a starter returns. */
  datatype Started = Started(ctx: Context, span: Span)

  /**
   * The shared fallback: StartSpan(operationName) on an extraction error,
   * StartSpan(operationName, ext.RPCServerOption(spanCtx)) otherwise, then
   * ContextWithSpan(ctx, span).
   */
  function StartServerSpan(ctx: Context, operationName: Bytes, extracted: Result<SpanContext, TracerError>)
    : (s: Started)
    ensures s.span.operationName == operationName
    ensures s.span.IsRoot() <==> extracted.Failure?
    ensures extracted.Success? ==> s.span.options == [RPCServerOption(extracted.value)]
    ensures ActiveSpan(s.ctx) == Some(s.span)
    ensures s.ctx.WithActiveSpan? && s.ctx.parent == ctx
    ensures Base(s.ctx) == Base(ctx)
    ensures IncomingMetadata(s.ctx) == IncomingMetadata(ctx)
    ensures OutgoingMetadata(s.ctx) == OutgoingMetadata(ctx)
  {
    var span :=
      match extracted
      case Failure(_) => Span(operationName, [])
      case Success(spanCtx) => Span(operationName, [RPCServerOption(spanCtx)]);
    Started(WithActiveSpan(ctx, span), span)
  }

  /** Extracts from the request's headers in the HTTPHeaders format. */
  function StartHttpServerTracerSpan(c: HttpRequest, operationName: Bytes, tracer: Tracer): (s: Started)
    ensures s.span.operationName == operationName
    ensures s.span.IsRoot() <==> tracer.extractHttp(c.header).Failure?
    ensures tracer.extractHttp(c.header).Success? ==>
              s.span.options == [RPCServerOption(tracer.extractHttp(c.header).value)]
    ensures ActiveSpan(s.ctx) == Some(s.span)
    ensures s.ctx.WithActiveSpan? && s.ctx.parent == c.ctx
  {
    StartServerSpan(c.ctx, operationName, tracer.extractHttp(c.header))
  }

  /** Extracts in the TextMap format from the first values of the incoming gRPC metadata. */
  function StartGrpcServerTracerSpan(ctx: Context, operationName: Bytes, tracer: Tracer): (s: Started)
    requires GrpcMetadata.FlattenableIncoming(ctx)
    ensures s.span.operationName == operationName
    ensures s.span.IsRoot() <==> tracer.extractTextMap(GrpcMetadata.IncomingCarrier(ctx)).Failure?
    ensures tracer.extractTextMap(GrpcMetadata.IncomingCarrier(ctx)).Success? ==>
              s.span.options == [RPCServerOption(tracer.extractTextMap(GrpcMetadata.IncomingCarrier(ctx)).value)]
    ensures ActiveSpan(s.ctx) == Some(s.span)
    ensures s.ctx.WithActiveSpan? && s.ctx.parent == ctx
  {
    StartServerSpan(ctx, operationName, tracer.extractTextMap(GrpcMetadata.IncomingCarrier(ctx)))
  }

  /**
   * Extracts in the TextMap format from the carrier holding every header
   * under its own key; the reserved "tracing" header is not consulted.
   */
  function StartKafkaConsumerTracerSpan(ctx: Context, headers: seq<Header>, operationName: Bytes, tracer: Tracer)
    : (s: Started)
    ensures s.span.operationName == operationName
    ensures s.span.IsRoot() <==> tracer.extractTextMap(KafkaHeaders.HeadersToMap(headers)).Failure?
    ensures tracer.extractTextMap(KafkaHeaders.HeadersToMap(headers)).Success? ==>
              s.span.options == [RPCServerOption(tracer.extractTextMap(KafkaHeaders.HeadersToMap(headers)).value)]
    ensures ActiveSpan(s.ctx) == Some(s.span)
    ensures s.ctx.WithActiveSpan? && s.ctx.parent == ctx
  {
    StartServerSpan(ctx, operationName, tracer.extractTextMap(KafkaHeaders.HeadersToMap(headers)))
  }

  /**
   * Injects into a fresh empty carrier; whatever Inject wrote before failing
   * is dropped and only the error is returned.
   */
  function InjectTextMapCarrier(spanCtx: SpanContext, tracer: Tracer): (r: Result<Carrier, TracerError>)
    ensures r.Failure? <==> tracer.inject(spanCtx, map[]).1.Some?
    ensures r.Failure? ==> r.error == tracer.inject(spanCtx, map[]).1.value
    ensures r.Success? ==> r.value == tracer.inject(spanCtx, map[]).0
  {
    var (written, err) := tracer.inject(spanCtx, map[]);
    if err.Some? then Failure(err.value) else Success(written)
  }

  /**
   * On a successful injection the carrier becomes the outgoing metadata of
   * a context derived from ctx; on failure ctx comes back unchanged.
   */
  function InjectTextMapCarrierToGrpcMetaData(ctx: Context, spanCtx: SpanContext, tracer: Tracer): (r: Context)
    ensures InjectTextMapCarrier(spanCtx, tracer).Failure? ==> r == ctx
    ensures InjectTextMapCarrier(spanCtx, tracer).Success? ==>
              r.WithOutgoingMetadata? && r.parent == ctx &&
              OutgoingMetadata(r) == Some(InjectTextMapCarrier(spanCtx, tracer).value)
    ensures Base(r) == Base(ctx)
    ensures IncomingMetadata(r) == IncomingMetadata(ctx)
    ensures ActiveSpan(r) == ActiveSpan(ctx)
  {
    match InjectTextMapCarrier(spanCtx, tracer)
    case Success(carrier) => WithOutgoingMetadata(ctx, carrier)
    case Failure(_) => ctx
  }

  /**
   * A consumer whose message headers were written from a carrier hands the
   * tracer exactly that carrier, so it starts the span the producer's
   * context calls for.
   */
  lemma KafkaConsumerExtractsProducedCarrier(ctx: Context, carrier: Carrier, headers: seq<Header>,
                                             operationName: Bytes, tracer: Tracer)
    requires KafkaHeaders.IsHeaderListOf(headers, carrier)
    ensures StartKafkaConsumerTracerSpan(ctx, headers, operationName, tracer)
            == StartServerSpan(ctx, operationName, tracer.extractTextMap(carrier))
  {
    KafkaHeaders.KafkaRoundTrip(headers, carrier);
  }

  /** Metadata wrapping each value of a carrier in a one-element list. */
  function SingleValued(carrier: Carrier): (md: Metadata)
    ensures GrpcMetadata.EveryKeyHasValue(md)
  {
    map k | k in carrier :: [carrier[k]]
  }

  /** No key of the carrier holds an upper-case ASCII letter ('A' = 65 .. 'Z' = 90). */
  predicate HasLowerCaseKeys(carrier: Carrier)
  {
    forall k: Bytes :: k in carrier ==> forall i: int :: 0 <= i < |k| ==> !(65 <= k[i] <= 90)
  }

  /**
   * A server whose incoming metadata holds the carrier the client injected,
   * one value per key, hands the tracer exactly that carrier. With lower-case
   * keys, metadata key lowercasing changes nothing, so this metadata is what
   * metadata.New builds from the carrier.
   */
  lemma GrpcServerExtractsInjectedCarrier(parent: Context, carrier: Carrier, operationName: Bytes, tracer: Tracer)
    requires HasLowerCaseKeys(carrier)
    ensures var ctx := WithIncomingMetadata(parent, SingleValued(carrier));
            StartGrpcServerTracerSpan(ctx, operationName, tracer)
            == StartServerSpan(ctx, operationName, tracer.extractTextMap(carrier))
  {
    var ctx := WithIncomingMetadata(parent, SingleValued(carrier));
    assert GrpcMetadata.IncomingCarrier(ctx) == carrier;
  }
}
