/**
 * The configuration of the search filter: the endpoint patterns that select
 * the search responses, the header names to deduplicate in them, and the
 * lazily computed lower-case copy of those header names that the filter uses
 * for case-insensitive comparison.
 */
module SearchFilter {
  import opened AsciiCase

  /** Java's nullable reference, for the cache field that starts as null. */
  datatype Option<T> = None | Some(value: T)

  /** Default regular expression that recognises a search endpoint in a request path. */
  const DEFAULT_SEARCH_ENDPOINT_PATTERN: string := "(/[^/]+)?/api/v\\d+(/[^/]+)?/_?search$"

  /** Default header to deduplicate in a search response. */
  const DEDUP_HEADERS: string := "Transfer-Encoding"

  /**
   * The lower-case copy of a list of header names, in the order the loop of
   * `GetHeadersLowerCase` builds it: one entry appended per name.
   */
  function LowerAll(headers: seq<string>): (r: seq<string>)
    ensures |r| == |headers|
    ensures forall i :: 0 <= i < |headers| ==> r[i] == ToLowerCase(headers[i])
  {
    if headers == [] then []
    else LowerAll(headers[..|headers| - 1]) + [ToLowerCase(headers[|headers| - 1])]
  }

  /**
   * Every name in the lower-case copy is already lower case, so lower-casing
   * the copy again changes nothing.
   */
  lemma {:induction false} LowerAllIsLowerCase(headers: seq<string>)
    ensures forall i :: 0 <= i < |headers| ==> IsLowerCase(LowerAll(headers)[i])
    ensures LowerAll(LowerAll(headers)) == LowerAll(headers)
  {
    var r := LowerAll(headers);
    forall i | 0 <= i < |headers| ensures LowerAll(r)[i] == r[i] {
      ToLowerCaseIdempotent(headers[i]);
    }
  }

  /**
   * The lower-case copy keeps order and duplicates: two positions hold the
   * same lower-case name exactly when the configured names there differ at
   * most in the case of their ASCII letters.
   */
  lemma {:induction false} LowerAllSameNameIff(headers: seq<string>, i: nat, j: nat)
    requires i < |headers| && j < |headers|
    ensures LowerAll(headers)[i] == LowerAll(headers)[j] <==>
            |headers[i]| == |headers[j]| &&
            forall k :: 0 <= k < |headers[i]| ==> LowerChar(headers[i][k]) == LowerChar(headers[j][k])
  {
    ToLowerCaseEqualIff(headers[i], headers[j]);
  }

  /** Lower-casing distributes over concatenation of header lists. */
  lemma {:induction false} LowerAllAppend(a: seq<string>, b: seq<string>)
    ensures LowerAll(a + b) == LowerAll(a) + LowerAll(b)
  {
    var l, la, lb := LowerAll(a + b), LowerAll(a), LowerAll(b);
    forall i | 0 <= i < |a| + |b| ensures l[i] == (la + lb)[i] {
      if i < |a| {
        assert (a + b)[i] == a[i];
      } else {
        assert (a + b)[i] == b[i - |a|];
      }
    }
  }

  class SearchFilterConfiguration {
    /** Regular expressions that recognise a search endpoint; carried, never read here. */
    var searchEndpointPatterns: seq<string>
    /** Names of the headers to deduplicate, in any case. */
    var dedupHeaders: seq<string>
    /** Lazily computed lower-case copy of `dedupHeaders`; `None` until first asked for. */
    var dedupHeadersLowerCase: Option<seq<string>>
    /** The value `dedupHeaders` had when the cache was filled. */
    ghost var cachedFrom: seq<string>

    /** Once filled, the cache is the lower-case copy of the names current at that time. */
    ghost predicate Valid()
      reads this
    {
      dedupHeadersLowerCase.Some? ==> dedupHeadersLowerCase.value == LowerAll(cachedFrom)
    }

    /** Construction with the two bound property lists; the cache starts empty. */
    constructor (searchEndpointPatterns: seq<string>, dedupHeaders: seq<string>)
      ensures Valid()
      ensures this.searchEndpointPatterns == searchEndpointPatterns
      ensures this.dedupHeaders == dedupHeaders
      ensures dedupHeadersLowerCase == None
    {
      this.searchEndpointPatterns := searchEndpointPatterns;
      this.dedupHeaders := dedupHeaders;
      dedupHeadersLowerCase := None;
      cachedFrom := [];
    }

    /** Construction when neither property is configured: each list holds its default. */
    constructor Default()
      ensures Valid()
      ensures searchEndpointPatterns == [DEFAULT_SEARCH_ENDPOINT_PATTERN]
      ensures dedupHeaders == [DEDUP_HEADERS]
      ensures dedupHeadersLowerCase == None
    {
      searchEndpointPatterns := [DEFAULT_SEARCH_ENDPOINT_PATTERN];
      dedupHeaders := [DEDUP_HEADERS];
      dedupHeadersLowerCase := None;
      cachedFrom := [];
    }

    /** Replaces the list of header names; the cache is left as it is. */
    method SetDedupHeaders(headers: seq<string>)
      requires Valid()
      modifies this`dedupHeaders
      ensures Valid()
      ensures dedupHeaders == headers
    {
      dedupHeaders := headers;
    }

    /** Replaces the list of endpoint patterns. */
    method SetSearchEndpointPatterns(patterns: seq<string>)
      requires Valid()
      modifies this`searchEndpointPatterns
      ensures Valid()
      ensures searchEndpointPatterns == patterns
    {
      searchEndpointPatterns := patterns;
    }

    /**
     * Returns the lower-case copy of the header names. The first call builds
     * it from the current `dedupHeaders` and stores it; every later call
     * returns the stored copy, even if `dedupHeaders` has changed since.
     */
    method GetHeadersLowerCase() returns (r: seq<string>)
      requires Valid()
      modifies this`dedupHeadersLowerCase, this`cachedFrom
      ensures Valid()
      ensures dedupHeadersLowerCase == Some(r)
      ensures old(dedupHeadersLowerCase).Some? ==>
                r == old(dedupHeadersLowerCase).value && cachedFrom == old(cachedFrom)
      ensures old(dedupHeadersLowerCase).None? ==>
                r == LowerAll(dedupHeaders) && cachedFrom == dedupHeaders
      ensures dedupHeaders == old(dedupHeaders)
      ensures searchEndpointPatterns == old(searchEndpointPatterns)
    {
      if dedupHeadersLowerCase.None? {
        dedupHeadersLowerCase := Some([]);
        var i := 0;
        while i < |dedupHeaders|
          invariant 0 <= i <= |dedupHeaders|
          invariant dedupHeadersLowerCase == Some(LowerAll(dedupHeaders[..i]))
        {
          assert dedupHeaders[..i + 1] == dedupHeaders[..i] + [dedupHeaders[i]];
          LowerAllAppend(dedupHeaders[..i], [dedupHeaders[i]]);
          dedupHeadersLowerCase := Some(dedupHeadersLowerCase.value + [ToLowerCase(dedupHeaders[i])]);
          i := i + 1;
        }
        assert dedupHeaders[..i] == dedupHeaders;
        cachedFrom := dedupHeaders;
      }
      r := dedupHeadersLowerCase.value;
    }
  }

  /**
   * A second call returns the same list as the first, both being the
   * lower-case copy of the configured names.
   */
  method RepeatedCallsAgree(patterns: seq<string>, headers: seq<string>)
    returns (first: seq<string>, second: seq<string>)
    ensures |first| == |headers|
    ensures forall i :: 0 <= i < |headers| ==> first[i] == ToLowerCase(headers[i])
    ensures second == first
  {
    var config := new SearchFilterConfiguration(patterns, headers);
    first := config.GetHeadersLowerCase();
    second := config.GetHeadersLowerCase();
  }

  /**
   * Replacing the header names after the first call does not refresh the
   * cache: the later call still answers with the copy of the old names, and
   * so disagrees with the new names whenever their lower-case copies differ.
   */
  method StaleAfterHeadersChange(patterns: seq<string>, headers: seq<string>, newHeaders: seq<string>)
    returns (before: seq<string>, after: seq<string>)
    ensures before == LowerAll(headers)
    ensures after == before
    ensures LowerAll(newHeaders) != LowerAll(headers) ==> after != LowerAll(newHeaders)
  {
    var config := new SearchFilterConfiguration(patterns, headers);
    before := config.GetHeadersLowerCase();
    config.SetDedupHeaders(newHeaders);
    after := config.GetHeadersLowerCase();
  }

  /**
   * Replacing the header names before the first call is seen: the cache is
   * built from the names current at that call.
   */
  method HeadersChangedBeforeFirstCall(patterns: seq<string>, headers: seq<string>, newHeaders: seq<string>)
    returns (r: seq<string>)
    ensures r == LowerAll(newHeaders)
  {
    var config := new SearchFilterConfiguration(patterns, headers);
    config.SetDedupHeaders(newHeaders);
    r := config.GetHeadersLowerCase();
  }

  /** With the default configuration the lower-case list is `["transfer-encoding"]`. */
  method DefaultHeadersLowerCase() returns (r: seq<string>)
    ensures r == ["transfer-encoding"]
  {
    var config := new SearchFilterConfiguration.Default();
    r := config.GetHeadersLowerCase();
    DefaultDedupHeaderLowerCase();
  }

  /**
   * The default header name lower-cases to "transfer-encoding". The literal
   * is handled in two halves, each in a lemma of its own, because one
   * position-by-position proof over all 17 characters exhausts the solver.
   */
  lemma DefaultDedupHeaderLowerCase()
    ensures LowerAll([DEDUP_HEADERS]) == ["transfer-encoding"]
  {
    var lower := ToLowerCase(DEDUP_HEADERS);
    assert lower == "transfer" + "-encoding" by {
      SplitDefaultHeader();
      LowerTransfer();
      LowerEncoding();
      ToLowerCaseAppend("Transfer", "-Encoding");
    }
    JoinDefaultLowerCase();
    assert LowerAll([DEDUP_HEADERS]) == [lower];
  }

  /** The default name is "Transfer" followed by "-Encoding". */
  lemma SplitDefaultHeader()
    ensures DEDUP_HEADERS == "Transfer" + "-Encoding"
  {
  }

  /** "transfer" followed by "-encoding" is "transfer-encoding". */
  lemma JoinDefaultLowerCase()
    ensures "transfer" + "-encoding" == "transfer-encoding"
  {
  }

  lemma LowerTransfer()
    ensures ToLowerCase("Transfer") == "transfer"
  {
    var a := "Transfer";
    forall i | 0 <= i < |a| ensures ToLowerCase(a)[i] == "transfer"[i] {
      if i == 0 { assert LowerChar('T') == 't'; } else { assert !IsUpper(a[i]); }
    }
  }

  lemma LowerEncoding()
    ensures ToLowerCase("-Encoding") == "-encoding"
  {
    var b := "-Encoding";
    forall i | 0 <= i < |b| ensures ToLowerCase(b)[i] == "-encoding"[i] {
      if i == 1 { assert LowerChar('E') == 'e'; } else { assert !IsUpper(b[i]); }
    }
  }
}
