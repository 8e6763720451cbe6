/**
 * GetTextMapCarrierFromMetaData (pkg/tracing/utils.go): the incoming gRPC
 * metadata, a list of values per key, flattened to a carrier by keeping the
 * first value of every key.
 */
module GrpcMetadata {
  import opened Wrappers
  import opened TracingTypes

  /** Every key has at least one value, so that indexing the list with [0] cannot panic. */
  predicate EveryKeyHasValue(md: Metadata)
  {
    forall k :: k in md ==> |md[k]| > 0
  }

  /** What `[0]` demands of the context's incoming metadata, if it has any. */
  predicate FlattenableIncoming(ctx: Context)
  {
    IncomingMetadata(ctx).Some? ==> EveryKeyHasValue(IncomingMetadata(ctx).value)
  }

  /** The carrier keeping the first value of each key. */
  function FirstValues(md: Metadata): Carrier
    requires EveryKeyHasValue(md)
  {
    map k | k in md :: md[k][0]
  }

  /** The carrier GetTextMapCarrierFromMetaData builds from a context. */
  function IncomingCarrier(ctx: Context): Carrier
    requires FlattenableIncoming(ctx)
  {
    match IncomingMetadata(ctx)
    case None => map[]
    case Some(md) => FirstValues(md)
  }

  /**
   * Visits the keys of the incoming metadata in the unspecified order of a Go
   * map range and sets each key to the first of its values.
   */
  method GetTextMapCarrierFromMetaData(ctx: Context) returns (carrier: Carrier)
    requires FlattenableIncoming(ctx)
    ensures IncomingMetadata(ctx).None? ==> carrier == map[]
    ensures IncomingMetadata(ctx).Some? ==> carrier.Keys == IncomingMetadata(ctx).value.Keys
    ensures IncomingMetadata(ctx).Some? ==>
              forall k :: k in carrier ==> carrier[k] == IncomingMetadata(ctx).value[k][0]
    ensures carrier == IncomingCarrier(ctx)
  {
    carrier := map[];
    var found := IncomingMetadata(ctx);
    if found.Some? {
      var md := found.value;
      var unvisited := md.Keys;
      while unvisited != {}
        invariant unvisited <= md.Keys
        invariant carrier.Keys == md.Keys - unvisited
        invariant forall k :: k in carrier ==> carrier[k] == md[k][0]
        decreases unvisited
      {
        var key :| key in unvisited;
        carrier := carrier[key := md[key][0]];
        unvisited := unvisited - {key};
      }
    }
  }

  /** Only the first of several values for one key reaches the carrier. */
  lemma FirstValueWins(key: Bytes, first: Bytes, second: Bytes)
    ensures FirstValues(map[key := [first, second]]) == map[key := first]
  {
  }
}
