/**
 * The Kafka adapters of pkg/tracing/utils.go: message headers to a carrier
 * (one entry per key, the last header wins), a carrier to message headers
 * (one header per entry), and the search for the reserved "tracing" header
 * whose value is an encoded carrier.
 */
module KafkaHeaders {
  import opened Wrappers
  import opened TracingTypes

  /* ----- Headers to carrier ----- */

  /** The carrier obtained by assigning every header's key in order, so the last one wins. */
  function HeadersToMap(hs: seq<Header>): Carrier
  {
    if hs == [] then map[]
    else HeadersToMap(hs[..|hs| - 1])[hs[|hs| - 1].key := hs[|hs| - 1].value]
  }

  /** The keys of the headers, compared byte for byte. */
  function KeysOf(hs: seq<Header>): set<Bytes>
  {
    set i | 0 <= i < |hs| :: hs[i].key
  }

  /** No header after the i-th has the i-th header's key. */
  ghost predicate IsLastWithKey(hs: seq<Header>, i: int)
  {
    0 <= i < |hs| && forall j :: i < j < |hs| ==> hs[j].key != hs[i].key
  }

  lemma {:induction false} HeadersToMapKeys(hs: seq<Header>)
    ensures HeadersToMap(hs).Keys == KeysOf(hs)
  {
    if hs != [] {
      var init := hs[..|hs| - 1];
      HeadersToMapKeys(init);
      assert KeysOf(hs) == KeysOf(init) + {hs[|hs| - 1].key} by {
        forall k | k in KeysOf(hs) ensures k in KeysOf(init) + {hs[|hs| - 1].key} {
          var i :| 0 <= i < |hs| && hs[i].key == k;
          if i < |hs| - 1 { assert init[i] == hs[i]; }
        }
        forall k | k in KeysOf(init) ensures k in KeysOf(hs) {
          var i :| 0 <= i < |init| && init[i].key == k;
          assert hs[i] == init[i];
        }
      }
    }
  }

  lemma {:induction false} HeadersToMapLastWins(hs: seq<Header>, i: int)
    requires IsLastWithKey(hs, i)
    ensures hs[i].key in HeadersToMap(hs) && HeadersToMap(hs)[hs[i].key] == hs[i].value
  {
    if i < |hs| - 1 {
      var init := hs[..|hs| - 1];
      assert init[i] == hs[i];
      assert IsLastWithKey(init, i) by {
        forall j | i < j < |init| ensures init[j].key != init[i].key {
          assert init[j] == hs[j];
        }
      }
      HeadersToMapLastWins(init, i);
    }
  }

  /**
   * TextMapCarrierFromKafkaMessageHeaders: visits the headers in order and
   * assigns each value under its key. Its key set and values are given by
   * HeadersToMapKeys and HeadersToMapLastWins.
   */
  method TextMapCarrierFromKafkaMessageHeaders(headers: seq<Header>) returns (textMap: Carrier)
    ensures textMap == HeadersToMap(headers)
  {
    textMap := map[];
    var n := 0;
    while n < |headers|
      invariant 0 <= n <= |headers|
      invariant textMap == HeadersToMap(headers[..n])
    {
      assert headers[..n + 1][..n] == headers[..n];
      textMap := textMap[headers[n].key := headers[n].value];
      n := n + 1;
    }
    assert headers[..n] == headers;
  }

  /** Keys compare case-sensitively: "Tracing" and "tracing" are two carrier entries. */
  lemma KeysAreCaseSensitive(v: Bytes, w: Bytes)
    ensures IsTracingKey(Ascii("Tracing")) && IsTracingKey(Ascii("tracing"))
    ensures |HeadersToMap([Header(Ascii("Tracing"), v), Header(Ascii("tracing"), w)])| == 2
  {
    var upper, lower := Ascii("Tracing"), Ascii("tracing");
    assert upper[0] != lower[0];
    var hs := [Header(upper, v), Header(lower, w)];
    assert hs[..1] == [Header(upper, v)];
    assert [Header(upper, v)][..0] == [];
    assert HeadersToMap(hs[..1]) == map[upper := v];
    assert HeadersToMap(hs) == map[upper := v][lower := w];
  }

  /* ----- Carrier to headers ----- */

  ghost predicate KeysDistinct(hs: seq<Header>)
  {
    forall i, j :: 0 <= i < j < |hs| ==> hs[i].key != hs[j].key
  }

  /** hs holds exactly one header for each key of m that is in ks, in some order. */
  ghost predicate IsHeaderListFor(hs: seq<Header>, m: Carrier, ks: set<Bytes>)
  {
    && |hs| == |ks|
    && KeysDistinct(hs)
    && (forall i :: 0 <= i < |hs| ==> hs[i].key in ks && hs[i].key in m && hs[i].value == m[hs[i].key])
    && (forall k :: k in ks ==> exists i :: 0 <= i < |hs| && hs[i].key == k)
  }

  /** hs holds exactly one header per entry of m, in some order. */
  ghost predicate IsHeaderListOf(hs: seq<Header>, m: Carrier)
  {
    IsHeaderListFor(hs, m, m.Keys)
  }

  /** Appending the header of one more entry extends a partial header list. */
  lemma AppendHeader(hs: seq<Header>, m: Carrier, ks: set<Bytes>, key: Bytes)
    requires IsHeaderListFor(hs, m, ks) && key in m && key !in ks
    ensures IsHeaderListFor(hs + [Header(key, m[key])], m, ks + {key})
  {
    var hs' := hs + [Header(key, m[key])];
    forall k | k in ks + {key} ensures exists i :: 0 <= i < |hs'| && hs'[i].key == k {
      if k == key {
        assert hs'[|hs|].key == k;
      } else {
        var i :| 0 <= i < |hs| && hs[i].key == k;
        assert hs'[i] == hs[i];
      }
    }
  }

  /**
   * TextMapCarrierToKafkaMessageHeaders: ForeachKey visits the entries in
   * the unspecified order of a Go map range and the callback appends one
   * header per entry. The callback always returns nil, so ForeachKey never
   * stops early, and its error branch would return the same list anyway.
   */
  method TextMapCarrierToKafkaMessageHeaders(textMap: Carrier) returns (headers: seq<Header>)
    ensures |headers| == |textMap|
    ensures KeysDistinct(headers)
    ensures forall i :: 0 <= i < |headers| ==> headers[i].key in textMap && headers[i].value == textMap[headers[i].key]
    ensures forall k :: k in textMap ==> exists i :: 0 <= i < |headers| && headers[i].key == k
    ensures IsHeaderListOf(headers, textMap)
  {
    headers := [];
    var unvisited := textMap.Keys;
    ghost var visited: set<Bytes> := {};
    while unvisited != {}
      invariant visited + unvisited == textMap.Keys && visited !! unvisited
      invariant IsHeaderListFor(headers, textMap, visited)
      decreases unvisited
    {
      var key :| key in unvisited;
      AppendHeader(headers, textMap, visited, key);
      headers := headers + [Header(key, textMap[key])];
      visited, unvisited := visited + {key}, unvisited - {key};
    }
    assert visited == textMap.Keys;
  }

  /** The message headers written for a carrier read back as that same carrier. */
  lemma KafkaRoundTrip(hs: seq<Header>, m: Carrier)
    requires IsHeaderListOf(hs, m)
    ensures HeadersToMap(hs) == m
  {
    HeadersToMapKeys(hs);
    forall k | k in m ensures k in HeadersToMap(hs) && HeadersToMap(hs)[k] == m[k] {
      var i :| 0 <= i < |hs| && hs[i].key == k;
      HeadersToMapLastWins(hs, i);
    }
  }

  /** The entries of a carrier as (key, value) headers. */
  ghost function Entries(m: Carrier): set<Header>
  {
    set k | k in m :: Header(k, m[k])
  }

  /** Without its last header, a header list of m is one of m without that key. */
  lemma DropLastHeader(hs: seq<Header>, m: Carrier)
    requires IsHeaderListOf(hs, m) && hs != []
    ensures IsHeaderListOf(hs[..|hs| - 1], m - {hs[|hs| - 1].key})
  {
    var last, init, rest := hs[|hs| - 1], hs[..|hs| - 1], m - {hs[|hs| - 1].key};
    assert rest.Keys == m.Keys - {last.key};
    forall i | 0 <= i < |init| ensures init[i].key in rest && init[i].value == rest[init[i].key] {
      assert init[i] == hs[i];
    }
    forall k | k in rest ensures exists i :: 0 <= i < |init| && init[i].key == k {
      var i :| 0 <= i < |hs| && hs[i].key == k;
      assert init[i] == hs[i];
    }
  }

  lemma EntriesWithout(m: Carrier, k: Bytes)
    requires k in m
    ensures Entries(m) == Entries(m - {k}) + {Header(k, m[k])}
    ensures Header(k, m[k]) !in Entries(m - {k})
  {
    forall h | h in Entries(m) ensures h in Entries(m - {k}) + {Header(k, m[k])} {
      var j :| j in m && h == Header(j, m[j]);
      if j != k { assert j in m - {k}; }
    }
  }

  /** The multiset of a set with one more element. */
  lemma MultisetOfAddedElement<T>(s: set<T>, x: T)
    requires x !in s
    ensures multiset(s + {x}) == multiset(s) + multiset{x}
  {
  }

  /** A header list of m is a permutation of m's entries: only the order is left open. */
  lemma {:induction false} HeaderListIsPermutation(hs: seq<Header>, m: Carrier)
    requires IsHeaderListOf(hs, m)
    ensures multiset(hs) == multiset(Entries(m))
  {
    if hs == [] {
      assert m.Keys == {};
    } else {
      var last, init := hs[|hs| - 1], hs[..|hs| - 1];
      DropLastHeader(hs, m);
      HeaderListIsPermutation(init, m - {last.key});
      EntriesWithout(m, last.key);
      MultisetOfAddedElement(Entries(m - {last.key}), last);
      assert hs == init + [last];
      assert multiset(hs) == multiset(init) + multiset{last};
    }
  }

  /* ----- The reserved "tracing" header ----- */

  /** An error of the binary codec (json.Unmarshal), opaque here. */
  datatype CodecError = CodecError(code: nat)

  datatype KafkaHeadersError =
    | NoTracingHeadersProvided
    | DecodeFailed(cause: CodecError)

  /** TextMapCarrierFromBinary's outcome, with its error passed on as it is. */
  function Decoded(r: Result<Carrier, CodecError>): Result<Carrier, KafkaHeadersError>
  {
    match r
    case Success(c) => Success(c)
    case Failure(e) => Failure(DecodeFailed(e))
  }

  /** The outcome of searching hs for the first reserved header and decoding it. */
  function TracingHeaderResult(hs: seq<Header>, decode: Bytes -> Result<Carrier, CodecError>)
    : Result<Carrier, KafkaHeadersError>
  {
    if hs == [] then Failure(NoTracingHeadersProvided)
    else if IsTracingKey(hs[0].key) then Decoded(decode(hs[0].value))
    else TracingHeaderResult(hs[1..], decode)
  }

  /**
   * TextMapCarrierFromKafkaHeaders: scans the headers in order and decodes
   * the value of the first one whose key equals "tracing" up to case, with
   * `decode` standing for TextMapCarrierFromBinary.
   */
  method TextMapCarrierFromKafkaHeaders(headers: seq<Header>, decode: Bytes -> Result<Carrier, CodecError>)
    returns (r: Result<Carrier, KafkaHeadersError>)
    ensures r == TracingHeaderResult(headers, decode)
  {
    var n := 0;
    while n < |headers|
      invariant 0 <= n <= |headers|
      invariant TracingHeaderResult(headers[n..], decode) == TracingHeaderResult(headers, decode)
    {
      if IsTracingKey(headers[n].key) {
        var fromBinary := decode(headers[n].value);
        if fromBinary.Failure? {
          return Failure(DecodeFailed(fromBinary.error));
        }
        return Success(fromBinary.value);
      }
      assert headers[n..][1..] == headers[n + 1..];
      n := n + 1;
    }
    return Failure(NoTracingHeadersProvided);
  }

  /** The search reports a missing header exactly when no key equals "tracing" up to case. */
  lemma {:induction false} MissingTracingHeader(hs: seq<Header>, decode: Bytes -> Result<Carrier, CodecError>)
    ensures TracingHeaderResult(hs, decode) == Failure(NoTracingHeadersProvided)
            <==> forall i :: 0 <= i < |hs| ==> !IsTracingKey(hs[i].key)
  {
    if hs != [] {
      MissingTracingHeader(hs[1..], decode);
      if !IsTracingKey(hs[0].key) {
        forall i | 0 < i < |hs| ensures hs[i] == hs[1..][i - 1] { }
      }
    }
  }

  /** Only the first reserved header is decoded; a decode failure is reported, not skipped. */
  lemma {:induction false} FirstTracingHeaderDecides(hs: seq<Header>, decode: Bytes -> Result<Carrier, CodecError>, i: int)
    requires 0 <= i < |hs| && IsTracingKey(hs[i].key)
    requires forall j :: 0 <= j < i ==> !IsTracingKey(hs[j].key)
    ensures TracingHeaderResult(hs, decode) == Decoded(decode(hs[i].value))
  {
    if i > 0 {
      forall j | 0 <= j < i - 1 ensures !IsTracingKey(hs[1..][j].key) {
        assert hs[1..][j] == hs[j + 1];
      }
      FirstTracingHeaderDecides(hs[1..], decode, i - 1);
    }
  }

  /** Headers after a reserved header do not change the outcome. */
  lemma {:induction false} LaterHeadersIgnored(hs: seq<Header>, more: seq<Header>, decode: Bytes -> Result<Carrier, CodecError>)
    requires exists i :: 0 <= i < |hs| && IsTracingKey(hs[i].key)
    ensures TracingHeaderResult(hs + more, decode) == TracingHeaderResult(hs, decode)
  {
    if !IsTracingKey(hs[0].key) {
      var i :| 0 <= i < |hs| && IsTracingKey(hs[i].key);
      assert hs[1..][i - 1] == hs[i];
      assert (hs + more)[1..] == hs[1..] + more;
      LaterHeadersIgnored(hs[1..], more, decode);
    }
  }
}
