# SearchFilterConfiguration, modelled in Dafny

This project models the configuration object of the search filter in
SearchFilter4SpringBoot. The filter removes duplicate response headers, such as
`Transfer-Encoding`, from responses of search endpoints. The configuration holds:

- `searchEndpointPatterns`: the regular expressions that recognise a search endpoint;
- `dedupHeaders`: the names of the headers to deduplicate;
- `dedupHeadersLowerCase`: a lazily computed, memoised lower-case copy of
  `dedupHeaders`, which the filter uses to compare header names without
  regard to case.

Lower-casing a header name, as Java's `String.toLowerCase()` does it, is modelled
in module `AsciiCase` (`ascii_case.dfy`) for the ASCII letters.

Module `SearchFilter` (`search_filter_configuration.dfy`) holds these parts:

- the two default constants;
- `LowerAll`, the specification of the lower-case copy;
- the class `SearchFilterConfiguration`;
- client methods that state what callers see.

The class's nullable cache field is an `Option<seq<string>>` that starts as
`None`. `GetHeadersLowerCase` has the source's loop: it fills the field one name
at a time, and the loop invariant ties the partial list to `LowerAll` of the
names seen so far. A ghost field `cachedFrom` records the value `dedupHeaders`
had when the cache was filled. The class invariant `Valid()` says that a filled
cache is the lower-case copy of exactly that list, and nothing more. That is
why a cache can go stale.

The endpoint patterns are carried and never read, as in the source. Spring
property binding becomes two constructors: one takes both lists, and `Default`
gives each list its one default element. The default pattern is the one at
line 77, `(/[^/]+)?/api/v\d+(/[^/]+)?/_?search$`. The class Javadoc at line 40
gives an older default without the middle `(/[^/]+)?` segment. The model follows
the code.

## Model

| member | source | states |
|---|---|---|
| `AsciiCase.LowerChar` | src/main/java/edu/kit/datamanager/configuration/SearchFilterConfiguration.java:118 | the lower-cased character is never an upper-case letter; it equals its input exactly when the input is not an upper-case letter; upper-case letters move to the matching letter in 'a'..'z' |
| `AsciiCase.ToLowerCase` | src/main/java/edu/kit/datamanager/configuration/SearchFilterConfiguration.java:118 | `header.toLowerCase()` keeps the length, has no upper-case letter left, and lower-cases each character in place |
| `AsciiCase.ToLowerCaseFixedIff` | src/main/java/edu/kit/datamanager/configuration/SearchFilterConfiguration.java:118 | a string is its own lower-case form if and only if it contains no upper-case letter |
| `AsciiCase.ToLowerCaseIdempotent` | src/main/java/edu/kit/datamanager/configuration/SearchFilterConfiguration.java:118 | lower-casing an already lower-cased name changes nothing |
| `AsciiCase.ToLowerCaseEqualIff` | src/main/java/edu/kit/datamanager/configuration/SearchFilterConfiguration.java:118 | two names have the same lower-case form if and only if they have the same length and agree character by character up to case |
| `AsciiCase.ToLowerCaseAppend` | src/main/java/edu/kit/datamanager/configuration/SearchFilterConfiguration.java:118 | lower-casing a concatenation is the concatenation of the lower-cased parts |
| `SearchFilter.LowerAll` | src/main/java/edu/kit/datamanager/configuration/SearchFilterConfiguration.java:116-119 | the list built by the loop has the same length as `dedupHeaders`, and entry i is the lower-case form of `dedupHeaders[i]`, so order and duplicates are kept |
| `SearchFilter.LowerAllIsLowerCase` | src/main/java/edu/kit/datamanager/configuration/SearchFilterConfiguration.java:118 | every entry of the cached list is lower case, and lower-casing the whole list again leaves it unchanged |
| `SearchFilter.LowerAllSameNameIff` | src/main/java/edu/kit/datamanager/configuration/SearchFilterConfiguration.java:117-118 | two positions of the cached list hold the same name if and only if the configured names there differ at most in letter case |
| `SearchFilter.LowerAllAppend` | src/main/java/edu/kit/datamanager/configuration/SearchFilterConfiguration.java:117-119 | the lower-case copy of a concatenation of header lists is the concatenation of their copies; the loop of `GetHeadersLowerCase` uses it to extend its invariant by one appended name |
| `SearchFilter.DefaultDedupHeaderLowerCase` | src/main/java/edu/kit/datamanager/configuration/SearchFilterConfiguration.java:83 | the lower-case copy of the default list `["Transfer-Encoding"]` is `["transfer-encoding"]` |
| `SearchFilter.SearchFilterConfiguration.constructor` | src/main/java/edu/kit/datamanager/configuration/SearchFilterConfiguration.java:93-107 | the bound lists are stored as given and the cache starts as null |
| `SearchFilter.SearchFilterConfiguration.Default` | src/main/java/edu/kit/datamanager/configuration/SearchFilterConfiguration.java:77-107 | with nothing configured, the patterns are `[DEFAULT_SEARCH_ENDPOINT_PATTERN]`, the headers are `[DEDUP_HEADERS]`, and the cache is null |
| `SearchFilter.SearchFilterConfiguration.SetDedupHeaders` | src/main/java/edu/kit/datamanager/configuration/SearchFilterConfiguration.java:101-102 | the header list is replaced, and the cache and the patterns are not touched |
| `SearchFilter.SearchFilterConfiguration.SetSearchEndpointPatterns` | src/main/java/edu/kit/datamanager/configuration/SearchFilterConfiguration.java:93-94 | the pattern list is replaced and nothing else changes |
| `SearchFilter.SearchFilterConfiguration.GetHeadersLowerCase` | src/main/java/edu/kit/datamanager/configuration/SearchFilterConfiguration.java:114-122 | afterwards the cache is non-null and equals the returned list. If the cache was null, the result is `LowerAll(dedupHeaders)` and is recorded as computed from the current names. Otherwise the stored list is returned unchanged. `dedupHeaders` and `searchEndpointPatterns` are never changed |
| `SearchFilter.RepeatedCallsAgree` | src/main/java/edu/kit/datamanager/configuration/SearchFilterConfiguration.java:114-122 | on a fresh configuration, the first call returns the element-wise lower-case copy of the names, and a second call returns the same list |
| `SearchFilter.StaleAfterHeadersChange` | src/main/java/edu/kit/datamanager/configuration/SearchFilterConfiguration.java:114-122 | once the cache is filled, replacing `dedupHeaders` does not change later results; they differ from the new names' copy whenever that copy differs from the old one |
| `SearchFilter.HeadersChangedBeforeFirstCall` | src/main/java/edu/kit/datamanager/configuration/SearchFilterConfiguration.java:114-122 | names replaced before the first call are the ones lower-cased |
| `SearchFilter.DefaultHeadersLowerCase` | src/main/java/edu/kit/datamanager/configuration/SearchFilterConfiguration.java:83-122 | with the default configuration, the call returns `["transfer-encoding"]` |

## Left out

- Spring wiring (`@Configuration`, `@Validated`, `@Value`) and the splitting of a comma-separated property string into a list: these are done by the framework. The model has a constructor that takes the two lists, and a `Default` constructor for unset properties.
- Compiling and matching the endpoint patterns: the source only declares the pattern strings. The matcher, and the deduplication of response headers that uses the lower-case list, are not part of this model.
- `AsciiCase.ToLowerCase`: only 'A'..'Z' are mapped. Java's `String.toLowerCase()` also lower-cases non-ASCII letters and depends on the default locale (the Turkish dotless i, for example).
- Concurrency: the model is sequential, so it cannot show the races in the source. Line 116 stores a new empty list in the field before the loop at lines 117-119 fills it, and the `add` at line 118 reads the field again on every pass. A second thread can therefore see a non-null list that is still empty or half filled, and return it as the cache. Two threads that both find the field null can each append into whichever list the field holds at that moment, so that list can hold names twice or be incomplete. The model keeps the same order (field first, then the loop), but each call runs to completion before the next one starts.
- A null `dedupHeaders`: the loop at line 117 would throw on it. The model's lists are never null.
- A null element in `dedupHeaders`: such an element can come in through the Lombok setter. Line 118 then throws after line 116 has already stored the list, so the field keeps the names before the null, and every later call returns that truncated list without an error. Strings in the model are never null, so `GetHeadersLowerCase` always completes the list.
- Aliasing: the source returns the cached `List` object itself, so a caller could mutate the cache through it. The model returns the list as a value.
- Other Lombok `@Data` members: the getters, `equals`, `hashCode` and `toString` only read fields. The generated setter for `dedupHeadersLowerCase` could store an arbitrary list and break `Valid()`, so it is not modelled. The setters for the two configured lists are modelled.
