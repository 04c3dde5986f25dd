# verify-ppb, modelled in Dafny

This project models the core of verify-ppb. verify-ppb is three small services
that check licenses against the Pharmacy and Poisons Board (PPB) portal:

- **facilities** checks a PPB registration number;
- **pharmtechs** checks a pharmaceutical technologist's license number;
- **pharmacists** checks a pharmacist's license number.

Each service runs one pipeline:

1. Normalise the number and, in the two pharmacy registers, check its format.
2. Look the number up in the cache.
3. Search the portal (rate-limited).
4. Read the encoded id from the search result.
5. Fetch the details page, using up to three request strategies for facilities.
6. Parse the page, plus the search row for the pharmacy registers.
7. Assemble a uniform envelope and cache a complete success.

The pipeline uses two components, both modelled here:

- `SimpleCache`, an ordered map with per-entry expiry, most-recently-used order, eviction of the oldest entry, and counters.
- `RateLimiter`, which keeps consecutive requests at least `delay` seconds apart.

Files:

| file | module | what it holds |
|---|---|---|
| `base.dfy` | `Base` | `Option`, `Result` |
| `text.dfy` | `Text` | `str.strip()`, `str.upper()`, `re.sub(r'\s+', ' ', …)`, `\s`, `\d`, `[A-Z]` and `re.IGNORECASE` on characters |
| `matcher.dfy` | `Matcher` | a backtracking matcher in continuation-passing style, for the regular expressions the services use (see below) |
| `simple_cache.dfy` | `SimpleCacheModel` | the functions that specify the cache, and the class `SimpleCache` |
| `rate_limiter.dfy` | `RateLimit` | the class `RateLimiter` and the spacing it keeps |
| `service_common.dfy` | `ServiceCommon` | the caller's argument, the configuration, the cache key, the shared messages |
| `facility_extract.dfy` | `FacilityExtract` | the pure steps of the facilities service |
| `facility_service.dfy` | `FacilityService` | the facilities verification: as a function `Verify`, then as the class `Service` |
| `pharm_extract.dfy` | `PharmExtract` | the pure steps of both pharmacy registers, which take the `Register` as a parameter |
| `pharm_service.dfy` | `PharmService` | the pharmacy-register verification: as a function `Verify`, then as the class `Service` |

**Regular expressions.** Each pattern the core uses becomes a composition of matcher combinators. The combinators are literals, greedy and lazy repetition of one character class, alternation, and the leftmost search of `re.search`. Python's own backtracking order is kept. For the labelled fields of the facilities page and for the pharmacy cell, name, license and photo patterns, a lemma proves the combinator form equal to a position-by-position specification (`…Spec`); for the number-format check, `FormatMatchIff` proves it equal to the register's grammar. A `…Field` function then gives what `match.group(1)` returns: the group at the leftmost position whose specification matches, or nothing when no position matches. `ValueSpec`, what `\s*(c+)` captures, is proved for every value class. When no run of the class follows the whitespace, the whitespace gives characters back, last first, until one belongs to the class, and that character alone is the group. For a class that takes all whitespace or none, only the last whitespace character can be given back (`ValueSpecUniform`). `[^\n<]` takes spaces but not newlines, so on `Cadre: \n<` the cadre search captures the space (`CadreGivesBackSpace`).

The superintendent's patterns are covered differently. `NumberLabelIff` states where either number label matches. `Tier1AtLayout` and `PortalCommentFound` show that the primary pattern captures the three values of any comment laid out as the portal writes it. `KelvinPageFound`, `KivuvaPageFound` and `DoePageFound` give the three test pages as instances of that layout. `Tier3` is stated through its three searches inside the comment. The name and cadre searches are `LabelField`s with the class `[^\n<]`, so `LabelSpec` gives their result. The number search is the leftmost position where `NumberSpec` matches (`NumberAtIff`). The first fallback pattern and the comment pattern of the third tier have no specification of their own.

**Each service is two layers.**

- The function `Verify` gives the whole outcome of `verify_license_detailed`: the envelope returned, the requests sent, and the envelope handed to `cache.set`. It takes as inputs:
  - the cache lookup's result;
  - the portal's replies;
  - the `verified_at` text;
  - whether storing raises.
- The class `Service` holds:
  - the cache, a `SimpleCache`;
  - the `RateLimiter`;
  - a ghost log `sent` of the requests sent.

  `Service.VerifyLicenseDetailed` is proved to return what `Verify` gives. It also proves that `sent` grows by the requests `Verify` lists, and that the cache changes exactly as `get` and `set` change it.

The properties of the pipeline are lemmas about `Verify`. They are stated over any `Reader`, the record of the page-reading functions. A second set of lemmas holds for the service's own readers (`Pages`).

## Model

| member | source | states |
|---|---|---|
| SimpleCacheModel.SimpleCache.constructor | verify-ppb/pharmtechs/src/adapters/cache_simple.py:18-36 | a new cache is empty, with the given `max_size` and `default_ttl` and all four counters at zero; the invariant (distinct keys, size within `max_size`) holds |
| SimpleCacheModel.SimpleCache.Get | verify-ppb/pharmtechs/src/adapters/cache_simple.py:38-68 | an absent key: None, one more miss, nothing else changes. An entry whose expiry is strictly before `now`: deleted, the others keep their order, one more miss, None. A live entry: its value, moved to the most-recent end with the others' order kept, one more hit. `sets` and `evictions` never change |
| SimpleCacheModel.SimpleCache.Set | verify-ppb/pharmtechs/src/adapters/cache_simple.py:70-98 | the entry expires at `now + ttl`, with `ttl` defaulting to `default_ttl`, and becomes the most recent. An existing key is replaced in place and nothing is evicted. A new key at capacity evicts exactly the oldest entry and counts an eviction. `sets` always goes up by one. A cache with `max_size <= 0` raises (the `KeyError` of evicting from an empty dict) and nothing changes. The invariant is kept |
| SimpleCacheModel.SimpleCache.Delete | verify-ppb/pharmtechs/src/adapters/cache_simple.py:100-115 | true exactly when the key was stored; only that entry goes, the others keep their order; the counters stay |
| SimpleCacheModel.SimpleCache.Clear | verify-ppb/pharmtechs/src/adapters/cache_simple.py:117-122 | every entry goes; the counters stay |
| SimpleCacheModel.SimpleCache.GetStats | verify-ppb/pharmtechs/src/adapters/cache_simple.py:124-145 | backend "simple", the size, `max_size`, the four counters, `total_requests = hits + misses`, and a hit rate `HitRate(hits, misses)` in [0, 100] |
| SimpleCacheModel.SimpleCache.CleanupExpired | verify-ppb/pharmtechs/src/adapters/cache_simple.py:147-166 | the two loops (collect the expired keys, then delete them one by one) leave exactly the live entries in their original order, and return how many were removed; the counters stay |
| SimpleCacheModel.HitRate | verify-ppb/pharmtechs/src/adapters/cache_simple.py:132-133 | the hit rate is in [0, 100]; it is 0 before any request and when there are no hits, and 100 when there are hits and no misses |
| SimpleCacheModel.Position | verify-ppb/pharmtechs/src/adapters/cache_simple.py:49 | where a key is stored in the ordered contents, or that it is not stored |
| SimpleCacheModel.Lookup | verify-ppb/pharmtechs/src/adapters/cache_simple.py:49-68 | what `get` returns: nothing for an absent or expired key, otherwise the stored value |
| SimpleCacheModel.SetThenGet | verify-ppb/pharmtechs/src/adapters/cache_simple.py:83-97 | after a `set` that did not raise, `get` of the same key returns the value just stored until it expires |
| SimpleCacheModel.SetRaisesIff | verify-ppb/pharmtechs/src/adapters/cache_simple.py:83-85 | in a cache that keeps its invariant, `set` raises exactly when `max_size <= 0` |
| SimpleCacheModel.MissLeavesNoEntry | verify-ppb/pharmtechs/src/adapters/cache_simple.py:49-62 | after a `get` that returned nothing, the key is not stored |
| SimpleCacheModel.AfterGetKeeps | verify-ppb/pharmtechs/src/adapters/cache_simple.py:57-65 | `get` never adds an entry |
| SimpleCacheModel.AfterSetKeeps | verify-ppb/pharmtechs/src/adapters/cache_simple.py:83-96 | `set` adds no entry but the one it stores |
| SimpleCacheModel.LookupLatest | verify-ppb/pharmtechs/src/adapters/cache_simple.py:89-96 | an entry just stored last, under a key stored nowhere else, is what `get` finds until it expires |
| SimpleCacheModel.SurvivorsLive | verify-ppb/pharmtechs/src/adapters/cache_simple.py:156-161 | an entry survives a clean-up exactly when it is live (`now <= expires_at`); survivors plus expired keys account for every entry |
| SimpleCacheModel.ExcludingExpired | verify-ppb/pharmtechs/src/adapters/cache_simple.py:156-161 | deleting the expired keys one at a time leaves exactly the survivors, in order |
| SimpleCacheModel.SurvivorsDistinct | verify-ppb/pharmtechs/src/adapters/cache_simple.py:154-166 | the contents left by a clean-up keep distinct keys and are no more than before |
| SimpleCacheModel.WithoutAt | verify-ppb/pharmtechs/src/adapters/cache_simple.py:59 | deleting the key at one position removes that entry and keeps the rest in order |
| SimpleCacheModel.WithoutAbsent | verify-ppb/pharmtechs/src/adapters/cache_simple.py:111-115 | deleting an absent key changes nothing |
| RateLimit.SleepTime | verify-ppb/pharmtechs/src/adapters/http.py:75-81 | no sleep when `delay` has already elapsed; otherwise a positive sleep that reaches `last + delay` and overshoots it by at most the 0.05 jitter; never more than `delay + 0.05` once the clock has passed the previous request |
| RateLimit.RateLimiter.constructor | verify-ppb/pharmtechs/src/adapters/http.py:62-71 | the given delay, and `last_request = 0`; no request let through yet |
| RateLimit.RateLimiter.Wait | verify-ppb/pharmtechs/src/adapters/http.py:73-83 | it sleeps `SleepTime`; `last_request` becomes the clock at return, at least `delay` after the previous one; the history of requests let through stays spaced by `delay` |
| RateLimit.SpacedAccumulates | verify-ppb/pharmtechs/src/adapters/http.py:76-83 | the spacing adds up: the n-th request let through comes at least `n * delay` after the first |
| ServiceCommon.CacheKey | verify-ppb/pharmtechs/src/services/ppb_service.py:361 | the key is `"detailed:"` followed by the number, unchanged |
| ServiceCommon.CacheKeyInjective | verify-ppb/facilities/src/services/ppb_service.py:444 | two numbers share a cache key exactly when they are equal; case is kept |
| Text.Strip | verify-ppb/pharmtechs/src/services/ppb_service.py:351 | the result has no whitespace at either end and is no longer than the input |
| Text.StripMargins | verify-ppb/facilities/src/services/ppb_service.py:440 | `strip()` removes only whitespace margins: the result is a slice of the input with only whitespace around it |
| Text.Upper | verify-ppb/pharmtechs/src/services/ppb_service.py:351 | `upper()` maps every character through ASCII upper-casing, keeping the length |
| Text.CleanField | verify-ppb/facilities/src/services/ppb_service.py:405-407 | a cleaned field value is stripped, its only whitespace is single spaces, and it is no longer than the raw match |
| Text.CleanFieldTwice | verify-ppb/facilities/src/services/ppb_service.py:405-407 | cleaning a cleaned value changes nothing |
| Text.CleanFieldIdempotent | verify-ppb/facilities/src/services/ppb_service.py:405-407 | a clean value is its own cleaning |
| Matcher.Search | verify-ppb/pharmtechs/src/services/ppb_service.py:195 | `re.search` returns the match at the leftmost position that has one, and nothing only when no position matches |
| Matcher.Found | verify-ppb/facilities/src/services/ppb_service.py:223 | searching for a literal pattern succeeds exactly when the literal occurs, case-folded when asked |
| Matcher.RelToken | verify-ppb/pharmtechs/src/services/ppb_service.py:195-201 | `rel='([^']+)'`: the token is non-empty, has no quote, and sits at the leftmost `rel='…'`; nothing exactly when the text has no such token |
| Matcher.RelAtIff | verify-ppb/pharmtechs/src/services/ppb_service.py:195 | at each position the pattern matches exactly when a `rel='token'` starts there, and captures that token |
| Matcher.LabelField | verify-ppb/facilities/src/services/ppb_service.py:390-398 | for every value class, the labelled-field search gives the group at the leftmost position where `LabelSpec` matches (the label ignoring case, whitespace, a colon for the spaced labels, then `ValueSpec`), and nothing exactly when no position matches |
| Matcher.NameField | verify-ppb/facilities/src/services/ppb_service.py:389 | the name inside its bold tag: the group at the leftmost match, nothing exactly when no position matches |
| Matcher.TailField | verify-ppb/pharmtechs/src/services/ppb_service.py:239 | a head, whitespace, a run of the value class, then a closing literal: the group at the leftmost match, nothing exactly when no position matches |
| Matcher.NameBodyIff | verify-ppb/pharmtechs/src/services/ppb_service.py:303 | the name is captured from the end of the whitespace up to the closing tag; the greedy `\s*` gives back one character only when the name would otherwise be empty |
| Matcher.ValueAtIff | verify-ppb/facilities/src/services/ppb_service.py:356-358 | for every class, `\s*(c+)` captures the whole run of the class after the whitespace; without one, the last character of the class inside the whitespace, alone; nothing when the whitespace holds none either |
| Matcher.ValueSpecUniform | verify-ppb/facilities/src/services/ppb_service.py:390-398 | for a class that takes all whitespace or none, the value is the run after the whitespace, or else the last whitespace character when the class takes it, or else nothing |
| Matcher.ColonValueAtIff | verify-ppb/facilities/src/services/ppb_service.py:392 | `\s*:\s*(c+)` captures the value after the colon that ends the whitespace |
| Matcher.TailValueIff | verify-ppb/pharmtechs/src/services/ppb_service.py:239 | `\s*(c+)tail` captures the whole run when the tail follows it |
| Matcher.MatchesAtIff | verify-ppb/pharmtechs/src/services/ppb_service.py:142 | a literal matches exactly when the slice it covers equals it letter by letter, up to case folding |
| Matcher.Downward | verify-ppb/facilities/src/services/ppb_service.py:319 | greedy repetition tries the longest run first: the highest position at which the rest succeeds |
| Matcher.Upward | verify-ppb/facilities/src/services/ppb_service.py:337 | lazy repetition and the search try the lowest position first |
| FacilityExtract.BuildSearchParams | verify-ppb/facilities/src/services/ppb_service.py:127-147 | the DataTables query sends the search term as `search[value]`, the timestamp as `_`, and `fetch = facilities` |
| FacilityExtract.SearchParamsFixed | verify-ppb/facilities/src/services/ppb_service.py:129-147 | every search sends the same keys, with the same values everywhere except the term and the timestamp |
| FacilityExtract.ExtractFacilityId | verify-ppb/facilities/src/services/ppb_service.py:182-206 | nothing when `data` is missing or empty; only the first row is read; an id only when that row has more than four columns with a truthy fifth, and then the leftmost `rel='…'` token of its text; nothing when that text has no token |
| FacilityExtract.ValidateDetailsResponse | verify-ppb/facilities/src/services/ppb_service.py:208-223 | true exactly when all three markers occur, ignoring case |
| FacilityExtract.FirstAccepted | verify-ppb/facilities/src/services/ppb_service.py:273-287 | the first accepted reply, with every earlier reply refused; nothing exactly when every reply is refused |
| FacilityExtract.Stripped3 | verify-ppb/facilities/src/services/ppb_service.py:323-333 | a tier's three groups become a superintendent exactly when the tier matched, each group stripped |
| FacilityExtract.Tier3 | verify-ppb/facilities/src/services/ppb_service.py:349-366 | the third tier finds a superintendent exactly when there is a `<!--…Superintendent…-->` comment and the name, cadre and number searches all match inside it; the superintendent is then the three groups, stripped, whose values `LabelField` and `CommentNumber` give |
| FacilityExtract.Tier3Labels | verify-ppb/facilities/src/services/ppb_service.py:349-359 | when the third tier finds a superintendent, its comment holds "Superintendent", "Cadre:" and one of the two number labels, ignoring case |
| FacilityExtract.CommentNumber | verify-ppb/facilities/src/services/ppb_service.py:358 | the number search inside the comment gives the value at the leftmost position where `NumberSpec` matches, and nothing exactly when no position does |
| FacilityExtract.NumberAtIff | verify-ppb/facilities/src/services/ppb_service.py:358 | at each position the number pattern matches exactly as `NumberSpec` says: "Enrollment Number:" or "Registration Number:", ignoring case, then the value of `[^\n<]` after the whitespace |
| FacilityExtract.CadreGivesBackSpace | verify-ppb/facilities/src/services/ppb_service.py:357 | on `Cadre: \n<` the cadre pattern captures the single space before the newline |
| FacilityExtract.NumberFound | verify-ppb/facilities/src/services/ppb_service.py:358 | the number search matches only where "Enrollment Number:" or "Registration Number:" occurs, ignoring case |
| Matcher.LabelFound | verify-ppb/facilities/src/services/ppb_service.py:356-357 | a labelled-field search matches only where its label occurs, ignoring case |
| Matcher.NumberLabelIff | verify-ppb/facilities/src/services/ppb_service.py:319 | the number-label alternation of the primary pattern matches at a position exactly when the text there starts with one of the two labels and its colon, ignoring case, and the pattern goes on right after the colon; the two labels never both match |
| FacilityExtract.Tier1AtLayout | verify-ppb/facilities/src/services/ppb_service.py:296-326 | on a comment laid out as the portal writes it (either number label, any whitespace before the `>`, at the start of each of the three lines and before each `<br />` and the `</a>`, one space where the portal writes one, values that are stripped, non-empty and free of `<`), the primary pattern matches at the comment's start and captures exactly the name, the cadre and the number |
| FacilityExtract.PortalCommentFound | verify-ppb/facilities/src/services/ppb_service.py:296-333 | a page made of text in which no `<!--` occurs, then such a comment, then anything, yields that superintendent from the first tier and from the extractor |
| FacilityExtract.KelvinPageFound | verify-ppb/facilities/tests/test_superintendent_fix.py:75-79 | the first test page, as the portal layout with one space before `>`, yields KELVIN KIPCHIRCHIR, PHARMTECH, 10858 |
| FacilityExtract.KivuvaPageFound | verify-ppb/facilities/tests/test_superintendent_fix.py:107-111 | the second test page, as the portal layout with no space before `>`, yields KIVUVA, PHARMTECH, 12832 |
| FacilityExtract.DoePageFound | verify-ppb/facilities/tests/test_superintendent_fix.py:126-133 | the third test page, markup around a comment with three spaces before `>`, yields JOHN DOE TEST, PHARMACIST, 99999 |
| FacilityExtract.ExtractSuperintendent | verify-ppb/facilities/src/services/ppb_service.py:289-373 | the first tier that finds the superintendent decides; nothing exactly when none of the three does; every value returned is stripped |
| FacilityExtract.FieldKeyInjective | verify-ppb/facilities/src/services/ppb_service.py:388-399 | no two fields share a key |
| FacilityExtract.EveryFieldListed | verify-ppb/facilities/src/services/ppb_service.py:388-399 | the ten fields are listed once each |
| FacilityExtract.DetailFields | verify-ppb/facilities/src/services/ppb_service.py:402-408 | a field is present exactly when its pattern matches; its value is the match cleaned, so it is stripped and single-spaced |
| FacilityExtract.FieldsOf | verify-ppb/facilities/src/services/ppb_service.py:402-408 | a field is kept exactly when it matched, with its cleaned value |
| FacilityExtract.ParsedInfo | verify-ppb/facilities/src/services/ppb_service.py:375-416 | the report holds the page's fields, and the superintendent exactly when the extractor found one |
| FacilityExtract.ParseDetailedHtml | verify-ppb/facilities/src/services/ppb_service.py:375-416 | the loop over the fields, then the superintendent, gives `ParsedInfo` |
| FacilityExtract.CollectFields | verify-ppb/facilities/src/services/ppb_service.py:402-408 | the loop adds each matching field, cleaned, and no other |
| FacilityService.DetailsParams | verify-ppb/facilities/src/services/ppb_service.py:239-242 | each details request asks for `search_details = facility` and the encoded id |
| FacilityService.DetailsRequests | verify-ppb/facilities/src/services/ppb_service.py:245-276 | the first n strategies, in order, each for the same id |
| FacilityService.Tried | verify-ppb/facilities/src/services/ppb_service.py:273-287 | strategies are tried up to and including the first accepted one, or all three |
| FacilityService.DetailsHtml | verify-ppb/facilities/src/services/ppb_service.py:273-287 | the page is the body of the first accepted reply; nothing only when every strategy failed |
| FacilityService.AcceptedNonEmpty | verify-ppb/facilities/src/services/ppb_service.py:277-281 | an accepted reply has a non-empty body |
| FacilityService.SignatureOfText | verify-ppb/facilities/src/services/ppb_service.py:438-526 | every message text shows which kind of message it is |
| FacilityService.TextInjective | verify-ppb/facilities/src/services/ppb_service.py:438-526 | two messages have the same text exactly when they are the same message, with the same number or error text |
| FacilityService.FetchedSearchesFirst | verify-ppb/facilities/src/services/ppb_service.py:453 | once past the cache, the search for the stripped number goes first |
| FacilityService.FetchedDetails | verify-ppb/facilities/src/services/ppb_service.py:453-468 | details are requested exactly when the search gave an encoded id, for that id, with the strategies in order up to the first accepted reply |
| FacilityService.FetchedOutcome | verify-ppb/facilities/src/services/ppb_service.py:453-496 | past the cache: a failure carries only the number and a message (not found, no facility id, no details, incomplete, connection error); a success carries the parsed page with a license number and `verified_at`, and is handed to the cache exactly when caching is on |
| FacilityService.StoredOutcome | verify-ppb/facilities/src/services/ppb_service.py:491-530 | a raising `cache.set` turns the result into the unexpected-error failure, and only then does the result change |
| FacilityService.VerifyRejectsInvalid | verify-ppb/facilities/src/services/ppb_service.py:437-438 | an empty or non-string argument fails at once, sending and caching nothing; only such an argument gets that message |
| FacilityService.VerifyServesHit | verify-ppb/facilities/src/services/ppb_service.py:444-450 | a cache hit is returned as stored, marked `from_cache`, and nothing is sent |
| FacilityService.VerifySearchesOnMiss | verify-ppb/facilities/src/services/ppb_service.py:437-453 | the portal is searched exactly when the argument is valid and the cache had nothing, first for the stripped number |
| FacilityService.VerifyDetailsAfterToken | verify-ppb/facilities/src/services/ppb_service.py:459-468 | details are requested only for the id found in the search data, with the strategies in order |
| FacilityService.VerifyEnvelope | verify-ppb/facilities/src/services/ppb_service.py:455-530 | success exactly with the success message; a failure has no data, is not marked cached, and names the stripped number (or the argument itself when that is invalid); a success has a license number; `from_cache` exactly on a hit; a fresh success carries the page the portal sent, parsed |
| FacilityService.VerifyStores | verify-ppb/facilities/src/services/ppb_service.py:491-492 | only a complete success of this call is handed to the cache, under the stripped number's key, and only with caching on after a miss |
| FacilityService.VerifyIgnoresMargins | verify-ppb/facilities/src/services/ppb_service.py:440 | numbers that differ only in surrounding whitespace are verified alike; case is kept |
| FacilityService.VerifyUncached | verify-ppb/facilities/src/services/ppb_service.py:445-492 | with caching off the cache is neither read nor written |
| FacilityService.StoredIsServed | verify-ppb/facilities/src/services/ppb_service.py:445-492 | a stored success is served by the next verification of the same number while its entry lives, whatever the portal now says |
| FacilityService.PagesTokenNonEmpty | verify-ppb/facilities/src/services/ppb_service.py:459-462 | with the service's readers, the id read from the search data is exactly `extract_facility_id`'s |
| FacilityService.PageOfAccepted | verify-ppb/facilities/src/services/ppb_service.py:465-468 | when accepted replies have non-empty bodies, the page parsed is the first accepted body |
| FacilityService.PagesHtmlNonEmpty | verify-ppb/facilities/src/services/ppb_service.py:465-468 | with the service's readers, the page parsed is the body of the first reply `validate_details_response` accepts, and there is none exactly when no strategy was accepted |
| FacilityService.Service.constructor | verify-ppb/facilities/src/services/ppb_service.py:35-121 | `use_cache` is the caller's wish and the configuration's; the TTL and the limiter's delay default to the configuration's; there is a fresh empty simple cache exactly when caching is on |
| FacilityService.Service.SearchFacilities | verify-ppb/facilities/src/services/ppb_service.py:149-180 | waits for the limiter once, records the request in `sent`, and returns the data or the exception's text |
| FacilityService.Service.GetFacilityDetails | verify-ppb/facilities/src/services/ppb_service.py:225-287 | waits for the limiter once, then returns `DetailsHtml` and records the requests of the strategies it tried in `sent` |
| FacilityService.Service.TryStrategies | verify-ppb/facilities/src/services/ppb_service.py:273-287 | the strategy loop returns the first accepted body and sends exactly the strategies up to it |
| FacilityService.Service.VerifyLicenseDetailed | verify-ppb/facilities/src/services/ppb_service.py:418-530 | returns `Verify`'s envelope for the cache lookup; `sent` grows by `Verify`'s requests with one limiter wait before the search and one before the details; the cache changes exactly as `get` then `set` change it |
| FacilityService.Service.Serve | verify-ppb/facilities/src/services/ppb_service.py:444-496 | a live entry is served; otherwise the portal is asked and a complete success stored |
| FacilityService.Service.Miss | verify-ppb/facilities/src/services/ppb_service.py:453-496 | after a miss, the portal's outcome is returned and stored as `Verify` says |
| FacilityService.Service.LookUp | verify-ppb/facilities/src/services/ppb_service.py:446 | `cache.get`; a hit is a complete success stored under that key |
| FacilityService.Service.Store | verify-ppb/facilities/src/services/ppb_service.py:492 | `cache.set` with the service's TTL; it raises exactly when the cache has no capacity |
| FacilityService.Service.Fetch | verify-ppb/facilities/src/services/ppb_service.py:453-488 | the search and what follows give `Fetched`'s envelope, requests and storing |
| FacilityService.Service.FromSearch | verify-ppb/facilities/src/services/ppb_service.py:455-488 | after the search: no rows is "not found", no id is the id failure, otherwise the details step |
| FacilityService.Service.FetchDetails | verify-ppb/facilities/src/services/ppb_service.py:465-488 | the details page, parsed and checked for a license number, gives `Detailed`'s outcome |
| FacilityService.Service.GetCacheStats | verify-ppb/facilities/src/services/ppb_service.py:532-539 | disabled exactly without a cache; otherwise the cache's statistics |
| FacilityService.Service.ClearCache | verify-ppb/facilities/src/services/ppb_service.py:541-546 | empties the cache exactly when caching is on, and says so; the counters stay |
| PharmExtract.FormatMatchIff | verify-ppb/pharmtechs/src/services/ppb_service.py:141-142 | the pattern accepts exactly the register's grammar: the prefix and "202" in either case, a year digit 3 to 9, a letter, five digits, and at most a final newline |
| PharmExtract.SerialIff | verify-ppb/pharmtechs/src/services/ppb_service.py:141 | `\d{5}$` holds exactly for five digits and then the end or a final newline |
| PharmExtract.SecondCharacter | verify-ppb/pharmacists/src/services/ppb_service.py:141 | a pharmtech number's second character is `T` in either case; a pharmacist number's is `2` |
| PharmExtract.FormatsDisjoint | verify-ppb/pharmacists/src/services/ppb_service.py:141-142 | no text is a number of both registers |
| PharmExtract.FormatIgnoresCase | verify-ppb/pharmtechs/src/services/ppb_service.py:142 | a number is accepted exactly when its upper-cased form is |
| PharmExtract.FormatLength | verify-ppb/pharmtechs/src/services/ppb_service.py:131 | a stripped number of the register has the prefix's length plus ten characters (12 for pharmtechs, 11 for pharmacists) |
| PharmExtract.FormatExamples | verify-ppb/pharmtechs/tests/test_errors.py:107-134 | the test numbers: PT2025D05614, pt2023z99999 and P2025D00463 are accepted; year 2022, year 2030, a short serial and a missing serial are refused, and a pharmtech number is refused as a pharmacist's |
| PharmExtract.Normalise | verify-ppb/pharmtechs/src/services/ppb_service.py:351 | `strip().upper()` gives a stripped number without lower-case letters, no longer than the input |
| PharmExtract.NormaliseIdempotent | verify-ppb/pharmtechs/src/services/ppb_service.py:351 | normalising a normalised number changes nothing |
| PharmExtract.SearchPayload | verify-ppb/pharmtechs/src/services/ppb_service.py:160-164 | the search posts exactly `search_register = 1`, the register's `cadre_id` (4 for pharmtechs, 2 for pharmacists) and the number |
| PharmExtract.PayloadInjective | verify-ppb/pharmacists/src/services/ppb_service.py:160-164 | two payloads are equal exactly for the same register and number |
| PharmExtract.DetailsParams | verify-ppb/pharmtechs/src/services/ppb_service.py:257-260 | the details request asks for `search_details = get` and the encoded id |
| PharmExtract.NoRecords | verify-ppb/pharmtechs/src/services/ppb_service.py:372 | "not found" exactly when the page is empty or contains "No records found" |
| PharmExtract.CellStart | verify-ppb/pharmtechs/src/services/ppb_service.py:224 | a cell's content starts after the first `>` following `<td` |
| PharmExtract.NameCellField | verify-ppb/pharmtechs/src/services/ppb_service.py:224-226 | the name cell followed by a cell starting with the prefix: the group at the leftmost match, nothing exactly when no position matches |
| PharmExtract.NameCellAgrees | verify-ppb/pharmtechs/src/services/ppb_service.py:224 | the name pattern matches as its position-by-position specification says, with one group |
| PharmExtract.LicenseCellField | verify-ppb/pharmtechs/src/services/ppb_service.py:229-231 | a cell holding the prefix, digits, a letter and digits: the group at the leftmost match, nothing exactly when no position matches |
| PharmExtract.LicenseCellAgrees | verify-ppb/pharmacists/src/services/ppb_service.py:229 | the license-cell pattern matches as its specification says, with one group |
| PharmExtract.PhotoField | verify-ppb/pharmtechs/src/services/ppb_service.py:323-325 | the photo is the source of an `<img src="…">` followed by whitespace and `width="200"`, at the leftmost match; nothing exactly when no position matches |
| PharmExtract.PhotoAgrees | verify-ppb/pharmtechs/src/services/ppb_service.py:323 | the photo pattern matches as its specification says, with one group |
| PharmExtract.FieldClassesFit | verify-ppb/pharmtechs/src/services/ppb_service.py:234-239 | the status and valid-till classes cannot run into their closing tags, so the greedy runs give nothing back |
| PharmExtract.KeyTextInjective | verify-ppb/pharmtechs/src/services/ppb_service.py:221-327 | no two fields share a dictionary key |
| PharmExtract.FieldsOfIff | verify-ppb/pharmtechs/src/services/ppb_service.py:221-243 | a field is present exactly when it is looked for and matched, with its match stripped |
| PharmExtract.FieldsOfAdd | verify-ppb/pharmtechs/src/services/ppb_service.py:224-241 | looking for one more field adds it, stripped, exactly when it matched |
| PharmExtract.ExtractSearchData | verify-ppb/pharmtechs/src/services/ppb_service.py:203-243 | the search row's name, license number, status and valid-till, each present exactly when matched, stripped |
| PharmExtract.CollectRow | verify-ppb/pharmtechs/src/services/ppb_service.py:221-243 | the step-by-step filling of the row's dictionary gives `FieldsOf` over the row's keys |
| PharmExtract.ParseDetailedHtml | verify-ppb/pharmtechs/src/services/ppb_service.py:281-327 | the page's full name, practice license number, status, valid-till and photo, each present exactly when matched, stripped |
| PharmExtract.CollectPage | verify-ppb/pharmtechs/src/services/ppb_service.py:300-327 | the step-by-step filling of the page's dictionary gives `FieldsOf` over the page's keys |
| PharmExtract.Merge | verify-ppb/pharmtechs/src/services/ppb_service.py:399 | `{**search_data, **detailed_info}`: every key of either, the details page winning on a shared key |
| PharmExtract.MergedLicense | verify-ppb/pharmacists/src/services/ppb_service.py:396-402 | the merged record has a license number exactly when the page's practice license number or the row's license number matched and is non-empty once stripped |
| PharmExtract.MergedPrefersPage | verify-ppb/pharmacists/src/services/ppb_service.py:399 | a key both records have takes the page's value; a key only the row has keeps the row's |
| PharmService.ExampleIsValid | verify-ppb/pharmtechs/src/services/ppb_service.py:357 | the example the format message shows is itself a valid number of the register |
| PharmService.SignatureOfText | verify-ppb/pharmtechs/src/services/ppb_service.py:349-454 | every message text shows which kind of message it is |
| PharmService.TextInjective | verify-ppb/pharmacists/src/services/ppb_service.py:349-454 | two messages have the same text exactly when they are the same message, with the same number or error text |
| PharmService.DetailsPage | verify-ppb/pharmtechs/src/services/ppb_service.py:262-279 | the details reply gives a page exactly when its status is 200, and the page is its body |
| PharmService.Params | verify-ppb/pharmtechs/src/services/ppb_service.py:160-260 | each request sends the search payload or the details query |
| PharmService.ParamsInjective | verify-ppb/pharmacists/src/services/ppb_service.py:160-260 | different requests send different parameters |
| PharmService.FetchedSent | verify-ppb/pharmtechs/src/services/ppb_service.py:370-390 | past the cache, the search for the number goes first, and the details of the encoded id follow exactly when the page gave one |
| PharmService.FetchedOutcome | verify-ppb/pharmtechs/src/services/ppb_service.py:370-424 | past the cache: a failure carries only the number and a message (not found, no details, incomplete, connection error), and "not found" happens exactly when the page gave no id; a success carries both records merged, with a license number and `verified_at`, and is handed to the cache exactly when caching is on |
| PharmService.FetchedCacheable | verify-ppb/pharmtechs/src/services/ppb_service.py:419-420 | what is stored is a complete success for the well-formed number its key names |
| PharmService.StoredOutcome | verify-ppb/pharmtechs/src/services/ppb_service.py:419-458 | a raising `cache.set` turns the result into the unexpected-error failure, and only then does the result change |
| PharmService.VerifyRejectsInvalid | verify-ppb/pharmtechs/src/services/ppb_service.py:348-349 | an empty or non-string argument fails at once, sending and caching nothing, and the failure names the argument as given; only such an argument gets that message |
| PharmService.VerifyRejectsFormat | verify-ppb/pharmacists/src/services/ppb_service.py:351-358 | a normalised number outside the grammar fails before the cache and the portal, naming the normalised number; only such a number gets the format message |
| PharmService.VerifyServesHit | verify-ppb/pharmtechs/src/services/ppb_service.py:361-367 | a cache hit is returned as stored, marked `from_cache`, and nothing is sent |
| PharmService.VerifySends | verify-ppb/pharmtechs/src/services/ppb_service.py:355-390 | the portal is asked exactly when the number is well-formed and the cache had nothing; the search for the normalised number goes first, then the details of the encoded id when the page had one |
| PharmService.VerifyEnvelope | verify-ppb/pharmtechs/src/services/ppb_service.py:346-458 | success exactly with the success message; a failure has no data, is not marked cached, and names the normalised number (or the argument when that is invalid); a success is for a well-formed number and has a license number and `verified_at`; `from_cache` exactly on a hit; a fresh success carries both records merged |
| PharmService.VerifyStores | verify-ppb/pharmacists/src/services/ppb_service.py:419-420 | only a complete success of this call is handed to the cache, under the normalised number's key, and only with caching on after a miss |
| PharmService.VerifyNormalises | verify-ppb/pharmtechs/src/services/ppb_service.py:351-361 | arguments with the same normalised number are verified alike, and, when that number is not empty, alike with the normalised number itself |
| PharmService.VerifyUncached | verify-ppb/pharmtechs/src/services/ppb_service.py:362-420 | with caching off the cache is neither read nor written |
| PharmService.StoredIsServed | verify-ppb/pharmacists/src/services/ppb_service.py:362-420 | a stored success is served by the next verification of the same number while its entry lives, whatever the portal now says |
| PharmService.PagesFormat | verify-ppb/pharmtechs/src/services/ppb_service.py:141-142 | the service's format check accepts exactly the register's grammar |
| PharmService.PagesToken | verify-ppb/pharmtechs/src/services/ppb_service.py:372-384 | with the service's readers, the id used is the leftmost `rel='…'` token of a page without "No records found" |
| PharmService.PagesSuccessFormat | verify-ppb/pharmacists/src/services/ppb_service.py:351-358 | a success of the register's service is for a number of the register's format and length |
| PharmService.PagesLicense | verify-ppb/pharmtechs/src/services/ppb_service.py:396-402 | with the service's readers, the record is complete exactly when the page's practice license number or the row's license number is non-empty once stripped |
| PharmService.Service.constructor | verify-ppb/pharmtechs/src/services/ppb_service.py:38-125 | `use_cache` is the caller's wish and the configuration's; the TTL and the limiter's delay default to the configuration's; there is a fresh empty simple cache exactly when caching is on |
| PharmService.Service.SearchRegister | verify-ppb/pharmtechs/src/services/ppb_service.py:144-180 | waits for the limiter, records the request in `sent`, and returns the page or the exception's text |
| PharmService.Service.GetDetails | verify-ppb/pharmacists/src/services/ppb_service.py:245-279 | waits for the limiter, records the request in `sent`, and returns the body exactly for status 200 |
| PharmService.Service.VerifyLicenseDetailed | verify-ppb/pharmtechs/src/services/ppb_service.py:329-458 | returns `Verify`'s envelope for the cache lookup; `sent` grows by `Verify`'s requests with one limiter wait each; the cache changes exactly as `get` then `set` change it |
| PharmService.Service.Serve | verify-ppb/pharmtechs/src/services/ppb_service.py:361-424 | a live entry is served; otherwise the portal is asked and a complete success stored |
| PharmService.Service.Miss | verify-ppb/pharmtechs/src/services/ppb_service.py:370-424 | after a miss, the portal's outcome is returned and stored as `Verify` says |
| PharmService.Service.Keep | verify-ppb/pharmtechs/src/services/ppb_service.py:419-458 | stores the result to be stored; a raising store turns the reply into the unexpected-error failure |
| PharmService.Service.LookUp | verify-ppb/pharmtechs/src/services/ppb_service.py:363 | `cache.get`; a hit is a complete success stored under that key |
| PharmService.Service.Store | verify-ppb/pharmtechs/src/services/ppb_service.py:420 | `cache.set` with the service's TTL; it raises exactly when the cache has no capacity |
| PharmService.Service.Fetch | verify-ppb/pharmtechs/src/services/ppb_service.py:370-416 | the search and what follows give `Fetched`'s envelope, requests and storing |
| PharmService.Service.FromSearch | verify-ppb/pharmtechs/src/services/ppb_service.py:372-387 | after the search: "No records found" or no id is "not found", otherwise the details step over the row's data |
| PharmService.Service.FetchDetails | verify-ppb/pharmtechs/src/services/ppb_service.py:390-416 | the details page, parsed, merged over the row and checked for a license number, gives `Detailed`'s outcome |
| PharmService.Service.GetCacheStats | verify-ppb/pharmtechs/src/services/ppb_service.py:460-467 | disabled exactly without a cache; otherwise the cache's statistics |
| PharmService.Service.ClearCache | verify-ppb/pharmtechs/src/services/ppb_service.py:469-475 | empties the cache exactly when caching is on, and says so; the counters stay |

## Left out

- HTTP transport is not modelled: `session.get`/`post`, `build_session` with its retries, timeouts and the header dictionaries. The portal is a parameter, `Portal`, holding the replies it gives. A failed status raised by `raise_for_status`, or a JSON body that does not decode, is a failed search carrying the exception's text.
- `time.time()`, `random.uniform` and `time.sleep` are not called. The readings are parameters:
  - `Tick` holds the clock before a wait, the jitter in [0, 0.05], and how late the sleep ended;
  - `Clock` holds the cache's readings, the facilities search timestamp and the `verified_at` text.
  
  The `strftime` format of `verified_at` and the millisecond timestamp are opaque strings.
- Time is an exact real, not a float. `processing_time_ms` is left out of the envelope.
- SimpleCacheModel.SimpleCache.GetStats: the hit rate is exact. The source rounds it to two decimals.
- `threading.Lock` is not modelled: every cache operation is atomic and sequential.
- The envelope is a value. The source sets `from_cache` on the very dictionary the cache holds, so later hits see it already set; the model marks the returned copy only. What the caller sees is the same.
- Redis (`cache_redis.py`, `get_cache`, the `redis` backend) is not part of this model. The facilities service builds its simple cache through `get_cache` from its own copy of the cache module, which is not part of this model either. It is modelled with the pharmtechs `SimpleCache`, whose interface and behaviour it is taken to share.
- `str.upper()`, `re.IGNORECASE` and `\d` are modelled on ASCII only. `\s` and `strip()` use Python's whitespace set for `str`; non-ASCII letters are left unchanged by `Upper`.
- The Flask API, Pydantic schemas, configuration loading, logging and the test files are not modelled. The configuration is a `Settings` value; the defaults and the testing settings are constants.
- FacilityExtract.ExtractSuperintendent: the three test pages are stated as a prefix, `PortalComment` with their padding, and a suffix, not as the literal strings. Proving a literal of over a hundred characters equal to that concatenation is beyond the solver's budget. The contract states the first-success-wins order and stripped values for every page. `PortalCommentFound` gives the result for every page in the portal's layout, generic over the name, cadre, number, padding and surrounding text.
- FacilityExtract.Tier2: the first fallback pattern has no specification of its own. What it accepts is given by its combinator form alone; the only property stated is `Stripped3`'s, that its three groups are stripped into the superintendent. The same holds for the comment pattern `<!--.*?Superintendent.*?-->` of the third tier, of which only the label-occurrence consequences are proved (`Tier3Labels`).
- The `try`/`except` around the superintendent extractor is not modelled: the matcher cannot raise.
- The exception handlers of `verify_license_detailed` catch anything unexpected. Of the exceptions the modelled code can raise, only the `KeyError` of `set` on a cache with `max_size <= 0` is modelled.
- The facilities search reply is taken to be a JSON object whose `data`, when present, is a list of lists (`rows`). Other JSON shapes are not modelled. Some make `extract_facility_id` raise, and the source then answers "Unexpected error: …" (lines 520-526). These are a truthy body that is not an object, a truthy `data` that is an object or a number, and a first row that is a number, a boolean, null, or an object with more than four keys. The others return no id (lines 192-199), and the service answers "Failed to extract facility ID from search results". These are a `data` that is a string, a falsy body such as `[]` or `""`, and a first row that is a string or an object with at most four keys.
- Facility and pharmacy matches of `re.search` are exact for the patterns used. A general regular-expression engine is not modelled.
- The cache is not consulted when a pharmacy number fails the format check, and the facilities service has no format check. Both are modelled as written.
