# Pokemon SOAP service: audit pipeline and lookup cache, modelled in Dafny

This project models the logic of the Pokemon SOAP service that does more than
wiring, and proves properties of that model:

- the **SOAP audit interceptor**. Four hooks share one per-request slot
  (`handleRequest`, `handleResponse`, `handleFault`, `afterCompletion`),
  together with its client-IP resolution and payload capture;
- the **audit sink**. `saveAuditLog` maps an audit record to the persisted
  entity, and `formatXml` minifies the payloads (Java `replaceAll(">\\s+<", "><")`
  followed by `trim()`);
- the **fault classifier**. `customizeFault` maps an exception to a fault
  actor, a code and a message;
- the **cached use-case service**. `getPokemonByName` is cached under the
  lowercased name and never caches null; the six SOAP response builders go
  through it;
- the **cache configuration**: two named caches, each bounded to 1000 entries,
  expiring 10 minutes after write, with a scheduled evict-all.

Modules, one per file:

| file | module | contents |
|---|---|---|
| wrappers.dfy | `Wrappers` | `Option`, standing for Java's nullable references |
| java_text.dfy | `JavaText` | string concatenation of null, `trim`, the regex `\s` class, ASCII case folding, the "only blanks deleted" relation |
| exceptions.dfy | `Exceptions` | the exception kinds, their messages, and `Call<T>` (returns a value or throws) |
| audit_log.dfy | `AuditLog` | the `SoapAuditLog` record and `RequestStatus` |
| audit_service.dfy | `AuditService` | `formatXml`, the entity mapping, and the audit service object |
| fault_resolver.dfy | `FaultResolver` | the classification and the `SoapFault` object it writes |
| interceptor.dfy | `Interceptor` | request views, client IP, payload capture, the hooks as slot transitions, the interceptor object |
| cache.dfy | `Cache` | the bounded expire-after-write cache |
| pokemon_model.dfy | `PokemonModel` | the domain Pokemon and the SOAP response types |
| cache_config.dfy | `CacheConfig` | the cache manager with its two caches and the scheduled clear |
| pokemon_service.dfy | `PokemonService` | the cached lookup and the response builders |

How the environment enters the model:
- Time is a parameter, in milliseconds.
- The thread's servlet request is a parameter (`None` when no request is bound).
- The upstream port's answer for a name is a parameter: a Pokemon, null, or an exception.
- Whether a repository save or the asynchronous hand-off throws is a boolean parameter.
- Every record handed to the audit service is appended to a ghost sequence, as is every name sent to the port.

## Model

Source paths are relative to the repository root.

| member | source | states |
|---|---|---|
| JavaText.JavaString | src/main/java/com/bankaya/pokemon/infrastructure/interceptor/SoapAuditInterceptor.java:193 | string concatenation renders a null reference as "null" and any other string as itself |
| JavaText.SpaceRun | src/main/java/com/bankaya/pokemon/application/service/SoapAuditService.java:50 | the length of the longest prefix of regex `\s` characters (space, tab, newline, vertical tab, form feed, carriage return) |
| JavaText.LeadingBlanks | src/main/java/com/bankaya/pokemon/application/service/SoapAuditService.java:50 | the length of the longest prefix of characters at most U+0020 |
| JavaText.TrailingBlanks | src/main/java/com/bankaya/pokemon/application/service/SoapAuditService.java:50 | the length of the longest suffix of characters at most U+0020 |
| JavaText.Trim | src/main/java/com/bankaya/pokemon/application/service/SoapAuditService.java:50 | `trim()` yields the contiguous slice of the input after its leading blanks, with only blanks after it, and a non-empty result starts and ends with a non-blank |
| JavaText.TrimIdempotent | src/main/java/com/bankaya/pokemon/application/service/SoapAuditService.java:50 | trimming twice equals trimming once |
| JavaText.ToLowerCase | src/main/java/com/bankaya/pokemon/application/service/PokemonService.java:44 | lowercasing keeps the length and lowercases each character in place |
| JavaText.EqualsIgnoreCaseIsLowerEquality | src/main/java/com/bankaya/pokemon/infrastructure/interceptor/SoapAuditInterceptor.java:149 | two strings are equal ignoring case exactly when their lowercasings are equal |
| JavaText.ToLowerCaseIdempotent | src/main/java/com/bankaya/pokemon/application/service/PokemonService.java:44 | lowercasing a lowercased key changes nothing |
| JavaText.DeletesOnlyBlanksReflexive | src/main/java/com/bankaya/pokemon/application/service/SoapAuditService.java:50 | deleting nothing is a deletion of blanks |
| JavaText.DeletesOnlyBlanksShorter | src/main/java/com/bankaya/pokemon/application/service/SoapAuditService.java:50 | a deletion of blanks never lengthens a string |
| JavaText.DeletesOnlyBlanksTransitive | src/main/java/com/bankaya/pokemon/application/service/SoapAuditService.java:50 | two deletions of blanks in a row are one deletion of blanks |
| JavaText.SliceDeletesOnlyBlanks | src/main/java/com/bankaya/pokemon/application/service/SoapAuditService.java:50 | cutting blank ends off a string deletes only blanks |
| JavaText.TrimDeletesOnlyBlanks | src/main/java/com/bankaya/pokemon/application/service/SoapAuditService.java:50 | `trim()` deletes only blanks |
| Exceptions.JavaException.Message | src/main/java/com/bankaya/pokemon/domain/exception/PokemonNotFoundException.java:12-13 | a not-found exception's message is built from the name; every other exception's message is the one it was created with (possibly null) |
| Exceptions.NotFoundMessageQuotesName | src/main/java/com/bankaya/pokemon/domain/exception/PokemonNotFoundException.java:13 | the not-found message is the name wrapped in fixed text: its length is that of the name plus 30, and the name starts at index 19 |
| Exceptions.NotFoundMessageInjective | src/main/java/com/bankaya/pokemon/domain/exception/PokemonNotFoundException.java:13 | two not-found messages are equal exactly when the names are |
| AuditService.FormatXml | src/main/java/com/bankaya/pokemon/application/service/SoapAuditService.java:43-54 | null maps to null and only null does; the empty string maps to itself |
| AuditService.SpaceRunExact | src/main/java/com/bankaya/pokemon/application/service/SoapAuditService.java:50 | a space run ends at the first character outside `\s` |
| AuditService.CollapseHead | src/main/java/com/bankaya/pokemon/application/service/SoapAuditService.java:50 | the rewrite keeps the first character of a non-empty string |
| AuditService.CollapseSpacePrefix | src/main/java/com/bankaya/pokemon/application/service/SoapAuditService.java:50 | a leading run of spaces not preceded by `>` passes through the rewrite unchanged |
| AuditService.CollapseGapFree | src/main/java/com/bankaya/pokemon/application/service/SoapAuditService.java:50 | the output of `replaceAll(">\\s+<", "><")` has no `>`, whitespace run, `<` left in it, even where matches overlap or cascade |
| AuditService.CollapseIdentity | src/main/java/com/bankaya/pokemon/application/service/SoapAuditService.java:50 | a string with no such gap is not changed by the rewrite |
| AuditService.CollapseDeletesOnlyBlanks | src/main/java/com/bankaya/pokemon/application/service/SoapAuditService.java:50 | the rewrite only deletes characters, and only whitespace |
| AuditService.GapFreeSuffix | src/main/java/com/bankaya/pokemon/application/service/SoapAuditService.java:50 | every suffix of a gap-free string is gap-free |
| AuditService.GapFreeBreaksEveryGap | src/main/java/com/bankaya/pokemon/application/service/SoapAuditService.java:50 | in a gap-free string, every `>` ... `<` pair with something between has a non-whitespace character between |
| AuditService.GapFreeNoTagGap | src/main/java/com/bankaya/pokemon/application/service/SoapAuditService.java:50 | the recursive gap-freedom test agrees in both directions with "no `>` followed by one or more `\s` followed by `<` anywhere" |
| AuditService.NoTagGapSlice | src/main/java/com/bankaya/pokemon/application/service/SoapAuditService.java:50 | a slice of a string without tag gaps has none either |
| AuditService.FormatXmlRemovesTagGaps | src/main/java/com/bankaya/pokemon/application/service/SoapAuditService.java:50 | the output of `formatXml` contains no `>` followed by one or more whitespace characters followed by `<` |
| AuditService.FormatXmlOnlyDeletes | src/main/java/com/bankaya/pokemon/application/service/SoapAuditService.java:50 | `formatXml` output is the input with some whitespace characters deleted, never longer |
| AuditService.FormatXmlIdempotent | src/main/java/com/bankaya/pokemon/application/service/SoapAuditService.java:43-54 | formatting a formatted payload changes nothing |
| AuditService.FormatXmlUnchangedIff | src/main/java/com/bankaya/pokemon/application/service/SoapAuditService.java:50 | a payload is left unchanged exactly when it has no tag gap and neither end is blank |
| AuditService.SpaceRunConcat | src/main/java/com/bankaya/pokemon/application/service/SoapAuditService.java:50 | a whitespace run that ends inside a string is not extended by what is appended to it |
| AuditService.Step | src/main/java/com/bankaya/pokemon/application/service/SoapAuditService.java:50 | one step of the left-to-right scan consumes at least one character and never more than remain |
| AuditService.CollapseByStep | src/main/java/com/bankaya/pokemon/application/service/SoapAuditService.java:50 | the replacement keeps the first character and continues after the consumed step |
| AuditService.StepConcat | src/main/java/com/bankaya/pokemon/application/service/SoapAuditService.java:50 | a string ending in a character other than `>` or whitespace takes the same first step whatever is appended |
| AuditService.CollapseSplitsAtText | src/main/java/com/bankaya/pokemon/application/service/SoapAuditService.java:50 | for every input, cutting after a character that is neither `>` nor whitespace commutes with `replaceAll(">\\s+<", "><")`: no match spans the cut |
| AuditService.KeepsTextPrefix | src/main/java/com/bankaya/pokemon/application/service/SoapAuditService.java:50 | a piece without tag gaps that ends in text is kept verbatim, whatever follows, so whitespace inside text content survives |
| AuditService.KeepsUnclosedRun | src/main/java/com/bankaya/pokemon/application/service/SoapAuditService.java:50 | a whitespace run after `>` that is not closed by `<` is kept |
| AuditService.ToEntity | src/main/java/com/bankaya/pokemon/application/service/SoapAuditService.java:25-34 | ipOrigin, soapMethod, durationMs, status, endpointClass and errorMessage are copied unchanged; a payload is null in the entity exactly when null in the record |
| AuditService.ToEntityPayloads | src/main/java/com/bankaya/pokemon/application/service/SoapAuditService.java:30-31 | a stored payload is its source payload with only whitespace deleted, and has no tag gap |
| AuditService.SoapAuditService.SaveAuditLog | src/main/java/com/bankaya/pokemon/application/service/SoapAuditService.java:23-41 | the save is attempted once with the mapped entity; a failing save leaves the store unchanged and is not propagated |
| FaultResolver.Classify | src/main/java/com/bankaya/pokemon/domain/exception/DetailedSoapFaultDefinitionExceptionResolver.java:24-60 | total classification: each kind gets exactly its own code among four. Not-found, bad-request and illegal-argument get "prefix + message" as actor and the exception message in the detail. Anything else gets the fixed actor and message |
| FaultResolver.CodeDeterminesKind | src/main/java/com/bankaya/pokemon/domain/exception/DetailedSoapFaultDefinitionExceptionResolver.java:30-57 | the four codes are distinct: two exceptions get the same code exactly when they are of the same kind |
| FaultResolver.InternalErrorHidesException | src/main/java/com/bankaya/pokemon/domain/exception/DetailedSoapFaultDefinitionExceptionResolver.java:52-59 | any two unexpected exceptions give identical faults, so nothing of the original exception reaches the client |
| FaultResolver.NotFoundFaultQuotesName | src/main/java/com/bankaya/pokemon/domain/exception/DetailedSoapFaultDefinitionExceptionResolver.java:25-33 | for not-found, both the actor and the detail message contain the looked-up name inside "Pokemon with name '...' not found" |
| FaultResolver.CustomizeFault | src/main/java/com/bankaya/pokemon/domain/exception/DetailedSoapFaultDefinitionExceptionResolver.java:21-60 | sets the fault actor and adds exactly one detail holding one code element and one message element, as classified |
| Interceptor.GetHeader | src/main/java/com/bankaya/pokemon/infrastructure/interceptor/SoapAuditInterceptor.java:148 | a header lookup returns the value of the first field whose name matches ignoring case (no earlier field matches), and is null exactly when no field matches |
| Interceptor.FirstUsable | src/main/java/com/bankaya/pokemon/infrastructure/interceptor/SoapAuditInterceptor.java:147-153 | the index of the first proxy header, in the fixed order, that is present, non-empty and not "unknown" in any case; every earlier one is unusable; none means all are |
| Interceptor.BeforeFirstComma | src/main/java/com/bankaya/pokemon/infrastructure/interceptor/SoapAuditInterceptor.java:151 | the longest comma-free prefix: followed by a comma or the end |
| Interceptor.FirstToken | src/main/java/com/bankaya/pokemon/infrastructure/interceptor/SoapAuditInterceptor.java:151 | `split(",")[0]` throws exactly when the value is non-empty and consists only of commas; the empty value gives the empty token |
| Interceptor.ClientIpResolution | src/main/java/com/bankaya/pokemon/infrastructure/interceptor/SoapAuditInterceptor.java:133-156 | with no bound request the resolution throws; otherwise the first usable proxy header decides through its first comma-separated token, trimmed, and the remote address is used when no header is usable |
| Interceptor.FirstUsableIs | src/main/java/com/bankaya/pokemon/infrastructure/interceptor/SoapAuditInterceptor.java:147-153 | the scan stops at the first usable header after the unusable ones before it |
| Interceptor.ExtractClientIp | src/main/java/com/bankaya/pokemon/infrastructure/interceptor/SoapAuditInterceptor.java:133-156 | the loop with its early return computes exactly the resolution above |
| Interceptor.Truncate | src/main/java/com/bankaya/pokemon/infrastructure/interceptor/SoapAuditInterceptor.java:185-190 | a payload of at most 10000 characters is kept; a longer one becomes its first 10000 characters plus "... [TRUNCATED]", so at most 10015 |
| Interceptor.TruncateIdempotent | src/main/java/com/bankaya/pokemon/infrastructure/interceptor/SoapAuditInterceptor.java:185-190 | capping a capped payload changes nothing |
| Interceptor.ExtractPayload | src/main/java/com/bankaya/pokemon/infrastructure/interceptor/SoapAuditInterceptor.java:179-195 | a written message gives its capped text; a failed write gives "Error extracting payload: " followed by the exception message instead of throwing |
| Interceptor.FindHandlerMethod | src/main/java/com/bankaya/pokemon/infrastructure/interceptor/SoapAuditInterceptor.java:197-202 | a handler method is found exactly for a method endpoint |
| Interceptor.ExtractSoapInfo | src/main/java/com/bankaya/pokemon/infrastructure/interceptor/SoapAuditInterceptor.java:158-177 | soapMethod becomes the DOM payload root's local name when there is such a root; endpointClass becomes the handler's declaring class for a method endpoint; nothing else changes |
| Interceptor.OpenRecord | src/main/java/com/bankaya/pokemon/infrastructure/interceptor/SoapAuditInterceptor.java:40-52 | a record is built exactly when client-IP resolution and `getRequest()` do not throw |
| Interceptor.OpenRecordContents | src/main/java/com/bankaya/pokemon/infrastructure/interceptor/SoapAuditInterceptor.java:42-49 | an opened record carries the IP, the request date, the start time, the captured request payload, soapMethod and endpointClass, and no status, duration, response payload or error message |
| Interceptor.Responded | src/main/java/com/bankaya/pokemon/infrastructure/interceptor/SoapAuditInterceptor.java:65-78 | with a record and a response, stores the response payload and sets SUCCESS; with no record nothing happens; a throwing `getResponse()` changes nothing |
| Interceptor.Faulted | src/main/java/com/bankaya/pokemon/infrastructure/interceptor/SoapAuditInterceptor.java:81-100 | with a record, sets FAULT first (kept even when `getResponse()` throws), then stores the response payload, then copies the fault reason only when the response carries a SOAP fault |
| Interceptor.Completed | src/main/java/com/bankaya/pokemon/infrastructure/interceptor/SoapAuditInterceptor.java:105-113 | duration is now minus start; an exception sets ERROR and its message whatever the earlier status; every other field is left as it was, with or without an exception |
| Interceptor.HandOff | src/main/java/com/bankaya/pokemon/infrastructure/interceptor/SoapAuditInterceptor.java:103-131 | at most one record is submitted per completion, exactly when a record is present and its hand-off is accepted |
| Interceptor.SoapAuditInterceptor.HandleRequest | src/main/java/com/bankaya/pokemon/infrastructure/interceptor/SoapAuditInterceptor.java:39-62 | always returns true; the slot is set only when the whole record was built, otherwise left as it was; nothing is submitted |
| Interceptor.SoapAuditInterceptor.HandleResponse | src/main/java/com/bankaya/pokemon/infrastructure/interceptor/SoapAuditInterceptor.java:65-78 | always returns true, and the slot moves as the response transition says |
| Interceptor.SoapAuditInterceptor.HandleFault | src/main/java/com/bankaya/pokemon/infrastructure/interceptor/SoapAuditInterceptor.java:81-100 | always returns true, and the slot moves as the fault transition says |
| Interceptor.SoapAuditInterceptor.AfterCompletion | src/main/java/com/bankaya/pokemon/infrastructure/interceptor/SoapAuditInterceptor.java:103-131 | the slot is empty afterwards on every path, including a rejected hand-off, and the submitted records grow by the hand-off |
| Interceptor.AfterEndpointKeepsRequestFields | src/main/java/com/bankaya/pokemon/infrastructure/interceptor/SoapAuditInterceptor.java:65-100 | the response and fault hooks never touch the IP, dates, request payload, soapMethod, endpointClass or duration |
| Interceptor.OnePerRequest | src/main/java/com/bankaya/pokemon/infrastructure/interceptor/SoapAuditInterceptor.java:39-131 | on a clean thread, a request submits exactly one record when its record was opened and the hand-off is accepted, and none otherwise |
| Interceptor.CompletedAfterHooks | src/main/java/com/bankaya/pokemon/infrastructure/interceptor/SoapAuditInterceptor.java:65-117 | the submitted record keeps the request-side fields. Its duration is the elapsed time, non-negative for a non-decreasing clock. Its status is ERROR with the exception's message when an exception is passed; otherwise FAULT after the fault hook, SUCCESS after a response hook that read the response, and unset otherwise |
| Interceptor.Exchange | src/main/java/com/bankaya/pokemon/infrastructure/interceptor/SoapAuditInterceptor.java:39-131 | running the hooks in dispatch order empties the slot and submits what the lifecycle says |
| Cache.Lookup | src/main/java/com/bankaya/pokemon/infrastructure/config/CacheConfig.java:49 | a read hits exactly when the key is stored and less than the time-to-live has passed since its last write, and then returns the stored value |
| Cache.TtlCache.constructor | src/main/java/com/bankaya/pokemon/infrastructure/config/CacheConfig.java:47-51 | a new cache is empty with the given bound and time-to-live |
| Cache.TtlCache.Get | src/main/java/com/bankaya/pokemon/infrastructure/config/CacheConfig.java:45-51 | a read changes nothing (so it does not extend an entry's life) and sees what the lookup relation says |
| Cache.TtlCache.Put | src/main/java/com/bankaya/pokemon/infrastructure/config/CacheConfig.java:47-51 | a write stores the value with the current time, keeps the size bound, alters no other entry, and evicts one unspecified other entry only when a new key meets a full cache |
| Cache.TtlCache.Clear | src/main/java/com/bankaya/pokemon/infrastructure/config/CacheConfig.java:62 | every entry is removed, whatever its age, and every read then misses |
| Cache.PutKeepsBound | src/main/java/com/bankaya/pokemon/infrastructure/config/CacheConfig.java:48 | no write takes a cache past its capacity |
| Cache.GetAfterPut | src/main/java/com/bankaya/pokemon/infrastructure/config/CacheConfig.java:49 | a read less than the time-to-live after a write returns the value written; from the time-to-live onwards it misses |
| Cache.PutLeavesOtherKeys | src/main/java/com/bankaya/pokemon/infrastructure/config/CacheConfig.java:47-51 | a write to one key leaves every other key reading as before, except a key evicted to make room, which then misses |
| Cache.RewriteResetsTtl | src/main/java/com/bankaya/pokemon/infrastructure/config/CacheConfig.java:49 | re-writing a key restarts its lifetime from the latest write |
| CacheConfig.CacheManager.constructor | src/main/java/com/bankaya/pokemon/infrastructure/config/CacheConfig.java:34-55 | the manager builds the caches "pokemonByName" and "pokemonById" empty, each with 1000 entries and 10 minutes (600000 ms) |
| CacheConfig.CacheManager.PutByName | src/main/java/com/bankaya/pokemon/infrastructure/config/CacheConfig.java:42-53 | a write to the by-name cache leaves the by-id cache unchanged |
| CacheConfig.CacheManager.PutById | src/main/java/com/bankaya/pokemon/infrastructure/config/CacheConfig.java:42-53 | a write to the by-id cache leaves the by-name cache unchanged |
| CacheConfig.CacheManager.ClearCacheScheduled | src/main/java/com/bankaya/pokemon/infrastructure/config/CacheConfig.java:61-65 | both caches are emptied regardless of entry age, and every read of either then misses |
| PokemonService.CacheKey | src/main/java/com/bankaya/pokemon/application/service/PokemonService.java:44 | the key keeps the name's length |
| PokemonService.CacheKeySharedIgnoringCase | src/main/java/com/bankaya/pokemon/application/service/PokemonService.java:44 | two names share a cache entry exactly when they are equal ignoring case |
| PokemonService.FetchOutcome | src/main/java/com/bankaya/pokemon/application/service/PokemonService.java:47 | the port's answer is returned as is: a Pokemon, null, or its exception propagated |
| PokemonService.LookupOutcome | src/main/java/com/bankaya/pokemon/application/service/PokemonService.java:43-48 | a live cached value is returned; otherwise the port's answer |
| PokemonService.Deref | src/main/java/com/bankaya/pokemon/application/service/PokemonService.java:52-127 | a builder fails exactly when the lookup throws (same exception) or returns null (NullPointerException) |
| PokemonService.CopiedAbilitiesUnique | src/main/java/com/bankaya/pokemon/application/service/PokemonService.java:56-64 | the abilities response list is determined by the domain list |
| PokemonService.CopiedHeldItemsUnique | src/main/java/com/bankaya/pokemon/application/service/PokemonService.java:84-91 | the held-items response list is determined by the domain list |
| PokemonService.CopyAbilities | src/main/java/com/bankaya/pokemon/application/service/PokemonService.java:56-64 | one SOAP ability per domain ability, in order, with name, url, isHidden and slot copied; a null list gives an empty list |
| PokemonService.CopyHeldItems | src/main/java/com/bankaya/pokemon/application/service/PokemonService.java:84-91 | one SOAP held item per domain held item, in order, with name and url copied; a null list gives an empty list |
| PokemonService.PokemonService.constructor | src/main/java/com/bankaya/pokemon/application/service/PokemonService.java:33-37 | the service uses the given cache manager and has not called the port |
| PokemonService.PokemonService.GetPokemonByName | src/main/java/com/bankaya/pokemon/application/service/PokemonService.java:43-48 | a hit returns the cached value without calling the port or changing the cache; a miss calls the port once with the original name and stores its answer under the lowercased key only when it is a Pokemon; the by-id cache is untouched |
| PokemonService.PokemonService.GetPokemonAbilities | src/main/java/com/bankaya/pokemon/application/service/PokemonService.java:50-67 | goes through the cached lookup; the response copies the abilities, or the call fails as the lookup result dictates |
| PokemonService.PokemonService.GetPokemonBaseExperience | src/main/java/com/bankaya/pokemon/application/service/PokemonService.java:69-75 | goes through the cached lookup; the response carries exactly the Pokemon's baseExperience |
| PokemonService.PokemonService.GetPokemonHeldItems | src/main/java/com/bankaya/pokemon/application/service/PokemonService.java:77-94 | goes through the cached lookup; the response copies the held items |
| PokemonService.PokemonService.GetPokemonId | src/main/java/com/bankaya/pokemon/application/service/PokemonService.java:96-106 | goes through the cached lookup; the response carries exactly the Pokemon's id; a null id throws NullPointerException, since the response's `setId` takes a primitive `long` |
| PokemonService.PokemonService.GetPokemonName | src/main/java/com/bankaya/pokemon/application/service/PokemonService.java:108-118 | goes through the cached lookup; the response carries exactly the Pokemon's name |
| PokemonService.PokemonService.GetPokemonLocationAreaEncounters | src/main/java/com/bankaya/pokemon/application/service/PokemonService.java:120-130 | goes through the cached lookup; the response carries exactly the Pokemon's locationAreaEncounters |
| PokemonService.SecondLookupHits | src/main/java/com/bankaya/pokemon/application/service/PokemonService.java:44 | after a miss answered with a Pokemon, a lookup of any case variant of the name within the time-to-live is served from the cache without calling the port |
| PokemonService.NullNotCached | src/main/java/com/bankaya/pokemon/application/service/PokemonService.java:44 | a null answer is not stored, so the next lookup misses again |

## Left out

- Time, randomness and I/O: `System.currentTimeMillis`, `LocalDateTime.now()`, the repository, the upstream port and the asynchronous executor are parameters (a clock value, a "save fails" or "hand-off rejected" flag, the port's answer).
- Concurrency: the `@Async` sink, thread-local isolation between threads and concurrent cache access. One request runs at a time, the slot is one field, and the hand-off is an append to a ghost sequence.
- Logging calls are left out; none of them changes state.
- JavaText.ToLowerCase: folds only ASCII letters. Java's `toLowerCase` uses the default locale and full Unicode mapping, and `equalsIgnoreCase` also folds other alphabets. String lengths are counted in characters, not UTF-16 units.
- PokemonService.CacheKey: the length claim and PokemonService.CacheKeySharedIgnoringCase hold for the modelled ASCII folding only. Under a Turkish locale "I" lowercases to a dotless i, and "İ" lowercases to two characters, so `"İ".equalsIgnoreCase("i")` holds while the two keys differ.
- Interceptor.Truncate: lengths are counted in characters. Java's `length()` and `substring(0, 10000)` count UTF-16 units, so a payload with supplementary characters is cut at a different point and the cut can split a surrogate pair.
- Interceptor.GetHeader: header names are matched with the same ASCII-only case folding. A null remote address is not modelled.
- Interceptor.ExtractPayload: `writeTo` is modelled as producing its UTF-8 decoded text or throwing. Byte-level decoding is not modelled.
- Interceptor.OpenRecord: the accessors other than `getRequest()`, `getResponse()` and `writeTo` (`getSoapBody`, `getPayloadSource`, `getNode`, `getLocalName`, `getMethod`) are taken not to throw.
- Interceptor.Completed: the record's `durationMs` is an unbounded integer. Java's `long` overflow on the subtraction is not modelled.
- Cache.TtlCache.Put: the eviction victim is any other key. Caffeine's real choice (size-based, frequency-aware) and its brief overshoot of the bound between a write and its cleanup are not modelled. Expired entries count towards the size until overwritten or evicted.
- `recordStats` and the cron timing of the hourly clear are left out. The clear is a plain operation.
- The by-id cache is configured but nothing in the modelled code reads or writes it. It is modelled only to state the independence of the two caches.
- PokemonService.PokemonService.GetPokemonByName: the upstream fetch is modelled as taking no time; the entry is stamped with the lookup's clock value, while Java writes it after the fetch returns. A null name, which makes the key expression itself throw, is not modelled; names are strings. The proxy lookup `getSelf()` is the direct call, since it resolves to the same cached method.
- PokemonService.CopyAbilities: a null element inside the abilities or held-items list, which would throw a NullPointerException in the copy, is not modelled; list elements are values.
- PokemonService.PokemonService.GetPokemonBaseExperience: the response's baseExperience is taken to be a boxed `Integer`, so a null value is copied; the tests pass `int` arguments, which fit either setter type.
- PokemonService.Deref: the NullPointerException raised on a null Pokemon is modelled with no message, rather than the JVM's generated helpful message.
- FaultResolver.CustomizeFault: whether the fault code is CLIENT or SERVER is decided by framework annotations and resolver mappings outside this code, so only the actor and the detail are modelled.
- PokeApiClient.fetchPokemonByName does not validate or trim the name; the upstream client is not modelled, and its answer is a parameter.
- AuditService.FormatXml: the `catch` that returns the input unchanged cannot be reached for a non-null string, so it is not modelled.
- SoapAuditLog's `id` field is never set by the modelled code and is omitted.
