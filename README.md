# Fork-it session and voting bookkeeping, in Dafny

Fork-it lets a group pick a lunch spot together. Its state lives in a few places:

- Two Cloudflare workers keep group sessions in a key-value namespace. `workers/session-api.mjs` and `workers/session-api.js` are the same worker, except that the `.mjs` one also proxies the Google APIs (geocoding, Places nearby search and autocomplete).
  - A session holds a roster of restaurants and one tally per restaurant. A tally has the list of users who upvoted and the list who downvoted.
  - Every request reads one record, transforms it, and writes it back.
- A third worker, `workers/voting-api.mjs`, keeps a shared list of lunch options and single-ballot sessions. In a ballot session each user votes once.
- The browser service `src/services/votingService.ts` repeats the vote and add-restaurant bookkeeping over a single localStorage slot.
- Three components supply small pure helpers:
  - the chart's per-restaurant counts;
  - the ZIP-code field's sanitiser and submit guard;
  - the filter dialog's cuisine toggle and reset.

The project models all of the above and proves what the code promises about it.

## Modules

- **Base, Seqs** (`base.dfy`, `seqs.dfy`): `Option`/`Outcome`, and the JavaScript array operations the code uses. `Count` stands for `includes`, `Without` for `filter(x => x !== v)`, and `IsSubseq` for the order a filter keeps.
- **Types** (`types.dfy`): the records of `src/types/index.ts`.
  - `upvotes`/`downvotes` are declared `number | string[]`. They are modelled as `VoteList`: either a list of voters or a bare count.
  - `SessionValid` is the bookkeeping invariant:
    - roster ids are unique;
    - there is one tally per restaurant id;
    - both lists of every tally are arrays without duplicates;
    - no user is on both sides of a tally.
  - Creating a session, voting and adding a restaurant keep the invariant. A PUT does not, in general: a body whose `restaurants` or `votes` breaks it is written as given. So `HandleUpdate` promises the invariant only for a body that patches neither list.
- **SessionLogic** (`session_logic.dfy`): the transforms both session workers and the browser service apply to a parsed session:
  - create a session;
  - cast a vote;
  - add a restaurant;
  - merge a PUT body.
- **Paths** (`paths.dfy`): `startsWith`, `split('/')[2]`, and the `^/sessions/[^/]+/<action>$` patterns.
- **SessionWorker** (`session_worker.dfy`):
  - the KV namespace, as a class with a `map` field and a ghost log of writes;
  - the route chains of both worker files;
  - one method per session handler.
- **PlacesFilter** (`places_filter.dfy`): the request-side part of `/places/nearby`:
  - price bounds, including `Math.min()`/`Math.max()` of an empty array;
  - the location check;
  - handling of the Places status;
  - the `filter`/`map` over the results.
- **VotingApi** (`voting_api.dfy`):
  - the options list and its CRUD handlers;
  - ballot sessions with the counting invariant: each count equals the number of users who chose that option, and the counts sum to the number of voters;
  - the router.
- **VotingService** (`voting_service.dfy`): the localStorage slot as a class, with `vote`, `addRestaurant`, `getVotesForRestaurant` and `getUserVote`.
- **ResultsChart**, **ZipCode**, **FilterButton**: the three component helpers.

The clock, `crypto.randomUUID()` and the Google reply are parameters. `createdAt` is kept as the millisecond reading whose ISO string the code stores. The workers read the clock once per session they create. The client reads it twice: `new Date()` for `createdAt` and then `Date.now()` for `expires`. `VotingService.Readings` carries both readings.

In JavaScript, a missing field and an empty string are both falsy, so the model writes both as "". A missing `isUpvote` is falsy, so it counts as a downvote. An array is truthy even when empty, so a PUT body with `restaurants: []` does clear the roster. The model writes that as `Some([])`.

Where the browser code and the workers differ, the model follows each one:

- The browser's `createSession` keeps the name as given. The worker's falls back to `'Default Session'`.
- The browser's `addRestaurant` does not refresh `expires`. The workers' `/add-restaurant` does.

## Model

| member | source | states |
|---|---|---|
| SessionLogic.NewSession | workers/session-api.mjs:9-27 | A falsy name becomes 'Default Session'; roster and tallies start empty; `expires` is `createdAt` plus 86400000 ms; the new session satisfies the invariant; the same holds for workers/session-api.js:17-27 |
| SessionLogic.WithTally | workers/session-api.mjs:304-314 | Yields the first tally for the restaurant; when none exists, an empty one is pushed at the end and its index is returned |
| SessionLogic.Recast | workers/session-api.mjs:316-325 | Filtering a bare count throws; otherwise the restaurant id is kept and both sides stay arrays |
| SessionLogic.CastVote | workers/session-api.mjs:303-325 | A vote changes only `votes`; the tally list grows by at most the one lazily added tally |
| SessionLogic.ApplyVote | workers/session-api.mjs:304-325 | The handler's in-place steps (find, lazy push, two filters, one push) compute exactly `CastVote` |
| SessionLogic.CastVoteFails | workers/session-api.mjs:304-318 | A vote throws exactly when the existing tally holds a number instead of a list; a lazily created tally never throws |
| SessionLogic.CastVoteExactlyOnce | workers/session-api.mjs:316-325 | Afterwards the user occurs exactly once on the chosen side and never on the other; the same holds for workers/session-api.js:202-210 |
| SessionLogic.CastVoteKeepsOthers | workers/session-api.mjs:316-325 | On each side, every other user keeps the same number of occurrences, and the side with the user removed is unchanged (so order is kept) |
| Seqs.WithoutIsSubseq | workers/session-api.mjs:317-318 | `filter(id => id !== userId)` keeps the survivors in their relative order |
| SessionLogic.CastVoteLazyTally | workers/session-api.mjs:303-314 | With no tally, exactly one is appended at the end and the old tallies stay as a prefix; otherwise the tally is updated in place and every other tally is untouched; the same holds for workers/session-api.js:188-199 |
| SessionLogic.CastVoteIdempotent | workers/session-api.mjs:316-325 | Casting the same vote again returns the same session |
| SessionLogic.CastVoteCounts | workers/session-api.mjs:316-325 | For a user on one side only: repeating that vote leaves both list lengths unchanged; flipping it lowers one by 1 and raises the other by 1 |
| SessionLogic.RecastValid | workers/session-api.mjs:316-325 | Recasting in a valid tally always succeeds and yields a valid tally |
| SessionLogic.CastVotePreservesValid | workers/session-api.mjs:303-325 | On a session satisfying the invariant, a vote never throws and keeps the invariant |
| SessionLogic.AddToRoster | workers/session-api.mjs:366-367 | A present id leaves the roster unchanged; an absent one is appended; either way the id is present afterwards |
| SessionLogic.AddToRosterProps | workers/session-api.mjs:366-367 | Adding is idempotent, keeps ids unique, and adds exactly that id to the id set |
| SessionLogic.AddAllDistinct | workers/session-api.mjs:366-367 | After any sequence of adds, ids stay unique and the roster has one entry per distinct id |
| SessionLogic.AddRestaurant | workers/session-api.mjs:365-374 | A known id returns the session unchanged; a new one appends exactly that restaurant and sets `expires` to now + 24 h, with nothing else changed; the same holds for workers/session-api.js:250-259 |
| SessionLogic.AddRestaurantProps | workers/session-api.mjs:365-376 | Adding keeps the session invariant and is idempotent whatever the second clock reading |
| SessionLogic.ApplyPatch | workers/session-api.mjs:245-251 | Only truthy `name`/`restaurants`/`votes` overwrite; `id` and `createdAt` are kept; `expires` is now + 24 h; the same holds for workers/session-api.js:130-136 |
| SessionLogic.ApplyPatchProps | workers/session-api.mjs:245-251 | An empty body only refreshes the expiry; a body that touches neither list keeps the invariant |
| Types.FindTally | workers/session-api.mjs:304 | `find` returns the first tally with the id; it returns none exactly when no tally has that id |
| Paths.SessionActionPaths | workers/voting-api.mjs:72-73 | `/sessions/{id}/{action}` matches the pattern and `split('/')[2]` returns the id; every matching path is built that way |
| SessionWorker.RoutesAgree | workers/session-api.js:40-270 | The two workers route every method and path alike, except that the Google routes of the module worker fall through to 404 in the plain one |
| SessionWorker.MjsRoute | workers/session-api.mjs:40-646 | OPTIONS is a preflight on any path; GET, PUT and DELETE reach the session handlers exactly for paths under `/sessions/`, with the third segment as the id; POST `/sessions`, `/vote` and `/add-restaurant` reach their handlers exactly for that method and path (Google routes: see Left out) |
| SessionWorker.JsRoute | workers/session-api.js:40-270 | The plain worker routes no Google path; OPTIONS, GET under `/sessions/`, POST `/sessions` and POST `/vote` are routed as in the module worker |
| SessionWorker.SessionPathRoutes | workers/session-api.mjs:205-274 | `/sessions/{id}` reaches GET, PUT and DELETE with `split('/')[2]` as the id, and so does `/sessions/{id}/<anything>` for all three methods |
| SessionWorker.HandleCreate | workers/session-api.mjs:171-185 | Writes `createSession(name)` under its fresh id and returns it; the body's other fields are ignored; the store invariants are kept; the same holds for workers/session-api.js:56-70 |
| SessionWorker.SessionsKv.Get | workers/session-api.mjs:208 | `SESSIONS.get(key)` yields the stored session, or null when the key is absent; the store is unchanged; the same holds for workers/session-api.mjs:230, 289 and 351 |
| SessionWorker.SessionsKv.Put | workers/session-api.mjs:254 | `SESSIONS.put(key, value)` overwrites only that key and logs one write; the same holds for workers/session-api.mjs:177, 328 and 373 |
| SessionWorker.SessionsKv.Delete | workers/session-api.mjs:266 | `SESSIONS.delete(key)` removes only that key and logs no put |
| SessionWorker.HandleGet | workers/session-api.mjs:205-226 | Returns the stored record, or 404 when the key is absent |
| SessionWorker.HandleUpdate | workers/session-api.mjs:227-262 | An absent key gives 404 and no write; otherwise the merged session is written under the path id; keys stay equal to stored ids; the same holds for workers/session-api.js:112-147 |
| SessionWorker.HandleDelete | workers/session-api.js:148-159 | Always reports success, removes the key, logs no put, keeps the invariants |
| SessionWorker.HandleVote | workers/session-api.mjs:275-336 | A missing id gives 400 and an unknown session 404, both with no write; a bare-count tally gives 500 with no write; otherwise the recast session is written under the session id; the same holds for workers/session-api.js:160-221 |
| SessionWorker.VoteParamsPresent | workers/session-api.mjs:279 | The falsy-id guard (`!sessionId`, `!restaurantId` or `!userId`), negated; `HandleVote` answers 400 and writes nothing exactly when it fails |
| SessionWorker.HandleAddRestaurant | workers/session-api.mjs:337-382 | A missing field gives 400 and an unknown session 404, with no write; a known id returns the stored session with no write; a new id is appended and written with a fresh expiry; the same holds for workers/session-api.js:222-267 |
| SessionWorker.DeleteThenGet | workers/session-api.js:90-159 | Deleting twice succeeds both times, and a following GET of that id is 404 |
| SessionWorker.AddTwiceScenario | workers/session-api.mjs:337-382 | After creating a session and adding the same restaurant twice, the roster holds it once and only the first add writes |
| PlacesFilter.MinOf | workers/session-api.mjs:409 | `Math.min(...xs)` is +Infinity exactly for an empty array, and otherwise an element no larger than any other |
| PlacesFilter.MaxOf | workers/session-api.mjs:410 | `Math.max(...xs)` is -Infinity exactly for an empty array, and otherwise an element no smaller than any other |
| PlacesFilter.PriceQueryParams | workers/session-api.mjs:432-435 | `minprice`/`maxprice` are added exactly when minPrice > 0 or maxPrice < 4, and then carry those two bounds |
| PlacesFilter.MinRating | workers/session-api.mjs:408 | `minRating ?? rating ?? 0`; its effect on the filter is stated by FilterPlacesSound and FilterPlacesComplete, its defaults by NoFiltersRange |
| PlacesFilter.MinPrice | workers/session-api.mjs:409 | `minPrice`, else `Math.min` of the price levels, else 0; `EmptyPriceLevelsDropPriced`, `DefaultFiltersRange` and `NoFiltersRange` state its values |
| PlacesFilter.MaxPrice | workers/session-api.mjs:410 | `maxPrice`, else `Math.max` of the price levels, else 4; the same lemmas state its values |
| PlacesFilter.Passes | workers/session-api.mjs:490-510 | The filter callback: rating, price range and cuisine tests; `Kept`, `FilterPlacesSound` and `FilterPlacesComplete` tie the output to it in both directions |
| PlacesFilter.FilterPlaces | workers/session-api.mjs:489-521 | `filter(...).map(...)` never yields more restaurants than places; `FilterPlacesSound`, `FilterPlacesComplete` and `FilterPlacesPriceInRange` state what it keeps |
| PlacesFilter.Kept | workers/session-api.mjs:490-510 | A place is kept exactly when it is in the input and passes the filter callback |
| PlacesFilter.Project | workers/session-api.mjs:512-521 | The output record carries the place's id, name, vicinity and geometry; rating, review count and price default to 0 and types to [] |
| PlacesFilter.KeptIsSubseq | workers/session-api.mjs:490-510 | The kept places are an order-preserving subsequence of `data.results` |
| PlacesFilter.FilterPlacesSound | workers/session-api.mjs:490-521 | Every returned restaurant comes from a passing place; its rating is at least minRating when minRating > 0; when cuisines are requested it shares one of them |
| PlacesFilter.FilterPlacesPriceInRange | workers/session-api.mjs:496-500 | A kept place that reports a price level has it within [minPrice, maxPrice], and the output carries that level |
| PlacesFilter.FilterPlacesComplete | workers/session-api.mjs:490-521 | A place passes exactly when it is kept, and then its projection is in the output |
| PlacesFilter.EmptyPriceLevelsDropPriced | workers/session-api.mjs:409-410 | An empty `priceLevel` array drops every place that reports a price and still sends `minprice=Infinity`, `maxprice=-Infinity` |
| PlacesFilter.DefaultFiltersRange | workers/session-api.mjs:408-435 | The client's default filters ask for prices 1 to 4: a place priced 0 is dropped, and one without a price level is kept |
| PlacesFilter.NoFiltersRange | workers/session-api.mjs:408-410 | Without filters the defaults are 0, 0 and 4, no price parameter is sent, and a place passes exactly when it has no price level or one in 0..4 |
| PlacesFilter.Nearby | workers/session-api.mjs:383-486 | No key gives 500; a falsy latitude, longitude or radius gives 400; a failed HTTP request gives the upstream-failure 500; ZERO_RESULTS gives an empty result; any other status than OK gives an API error carrying that status; OK returns the filtered results |
| VotingApi.BallotKey | workers/voting-api.mjs:68 | `session:<id>` never collides with the `'options'` key |
| VotingApi.BallotKeyInjective | workers/voting-api.mjs:76 | Distinct session ids have distinct keys |
| VotingApi.VotingKv.GetOptions | workers/voting-api.mjs:24-27 | Yields the stored list, or [] when the key is absent |
| VotingApi.VotingKv.PutOptions | workers/voting-api.mjs:42 | Overwrites the options list without a TTL and leaves the ballots alone; the same holds for workers/voting-api.mjs:53 and 61 |
| VotingApi.VotingKv.GetBallot | workers/voting-api.mjs:76 | Yields the ballot under the key, or null; the same holds for workers/voting-api.mjs:88 |
| VotingApi.VotingKv.PutBallot | workers/voting-api.mjs:82 | Overwrites only that ballot with TTL 86400 and leaves the options alone; the same holds for workers/voting-api.mjs:68 |
| VotingApi.FindOption | workers/voting-api.mjs:50 | `findIndex` yields the first index with the id; it is -1 (None) exactly when no option has that id |
| VotingApi.RenameAt | workers/voting-api.mjs:52 | Only that option's name changes; an empty name keeps the old one; the option's id and every other option are unchanged |
| VotingApi.RenameKeepsIds | workers/voting-api.mjs:52 | Renaming never changes any id, and an empty name changes nothing |
| VotingApi.RemoveOption | workers/voting-api.mjs:60 | The result holds exactly the options whose id differs |
| VotingApi.RemoveOptionProps | workers/voting-api.mjs:57-63 | Deleting keeps the others in order, is idempotent, and leaves a list without that id unchanged |
| VotingApi.NewBallot | workers/voting-api.mjs:65-69 | A new ballot has empty `votes` and `voters` and satisfies the counting invariant |
| VotingApi.AlreadyVoted | workers/voting-api.mjs:79 | `session.voters[userId]` is truthy; `CastBallot` refuses exactly then, and `AlreadyVotedMeansPresent` ties it to `voters` |
| VotingApi.CastBallot | workers/voting-api.mjs:79-81 | A user whose entry is truthy is refused; otherwise `voters[userId] = optionId`, and only `votes[optionId]` changes, by +1 from its value or from 0 |
| VotingApi.TotalIncrement | workers/voting-api.mjs:81 | Adding one to a single count adds one to the sum of the counts |
| VotingApi.AlreadyVotedMeansPresent | workers/voting-api.mjs:79 | Under the invariant, the truthiness test means "is in `voters`" |
| VotingApi.CastBallotPreservesInvariant | workers/voting-api.mjs:67-82 | A successful vote keeps each count equal to its voter count and the total equal to the number of voters, both one higher than before |
| VotingApi.SecondVoteRefused | workers/voting-api.mjs:79-80 | After a recorded vote, the same user's next vote is refused whatever option it names |
| VotingApi.VoteRoute | workers/voting-api.mjs:72-73 | POST `/sessions/{id}/vote` reaches the vote handler with that id |
| VotingApi.Route | workers/voting-api.mjs:12-94 | OPTIONS is a preflight; `/options` lists on GET and adds on POST; PUT and DELETE under `/options/` rename and delete the third segment; POST `/sessions` creates a ballot; the vote and results routes need their method and the `^/sessions/[^/]+/<action>$` shape and carry the third segment |
| VotingApi.ResultsRoute | workers/voting-api.mjs:86-87 | GET `/sessions/{id}/results` reaches the results handler with that id |
| VotingApi.HandleListOptions | workers/voting-api.mjs:31-34 | Returns the stored options, or [] |
| VotingApi.HandleAddOption | workers/voting-api.mjs:36-44 | No name gives 400 and no write; otherwise `{id, name}` is appended at the end, written, and returned with 201 |
| VotingApi.HandleRenameOption | workers/voting-api.mjs:46-55 | An unknown id gives 404 and no write; otherwise the renamed list is written and the renamed option returned |
| VotingApi.HandleDeleteOption | workers/voting-api.mjs:57-63 | Always writes the filtered list and reports success |
| VotingApi.HandleCreateBallot | workers/voting-api.mjs:65-70 | Stores an empty ballot under `session:<id>` with a TTL of 86400 s and returns 201 with the id; the invariants are kept |
| VotingApi.HandleVote | workers/voting-api.mjs:72-84 | Missing fields give 400 and an unknown session 404; 'Already voted' gives 400; all three with no write. Otherwise the updated ballot is written with the TTL; the counting invariant is kept |
| VotingApi.HandleResults | workers/voting-api.mjs:86-92 | Returns the counts, or 404 |
| VotingApi.VoteOnceScenario | workers/voting-api.mjs:65-84 | A fresh ballot counts one vote, and the same user's second vote is refused |
| VotingService.ClientSession | src/services/votingService.ts:7-15 | The name is kept as given; roster and tallies are empty; `createdAt` is the `new Date()` reading; `expires` is 24 h after the later `Date.now()` reading, hence at least 24 h after creation when the clock does not go back; it satisfies the invariant |
| VotingService.SessionOrDefault | src/services/votingService.ts:35-38 | The stored session, or a fresh 'Default Session' with empty lists; valid whenever the slot is; the same holds for src/services/votingService.ts:77-80 |
| VotingService.SessionSlot.SaveSession | src/services/votingService.ts:26-28 | Overwrites the slot and logs one save |
| VotingService.SessionSlot.CreateSession | src/services/votingService.ts:7-18 | Builds the session and stores it in the slot |
| VotingService.SessionSlot.GetVotesForRestaurant | src/services/votingService.ts:68-74 | Returns the first tally with that id, or null when there is none or no session; the same holds for src/services/votingService.ts:88-94 |
| VotingService.SessionSlot.GetSession | src/services/votingService.ts:20-24 | The parsed slot, or null when it is empty; `Vote` proves what it returns after a vote through `GetUserVote` |
| VotingService.SessionSlot.GetUserVote | src/services/votingService.ts:96-106 | true iff the user is among the upvoters; false iff among the downvoters but not the upvoters; null otherwise; `includes` on a count throws |
| VotingService.SessionSlot.Vote | src/services/votingService.ts:30-66 | An empty slot first stores a Default Session; a thrown vote saves nothing; otherwise the recast session is saved; then `getUserVote` returns that vote; the invariant is kept |
| VotingService.SessionSlot.AddRestaurant | src/services/votingService.ts:76-86 | An empty slot first stores a Default Session; the restaurant is appended and saved only when its id is new; the expiry is not touched |
| VotingService.AddTwiceScenario | src/services/votingService.ts:76-86 | Adding the same restaurant twice stores it once (the roster is `[r]` from an empty slot, one entry more for a new id, unchanged for a known one), and only the first call saves: the Default Session when the slot was empty, then the append |
| VotingService.FlipScenario | src/services/votingService.ts:30-66 | An upvote followed by a downvote leaves `getUserVote` at false |
| ResultsChart.ListSize | src/components/ResultsChart.tsx:18-19 | An array counts its length; a bare number counts 0 |
| ResultsChart.Rows | src/components/ResultsChart.tsx:14-21 | There is one row per roster restaurant, in roster order |
| ResultsChart.RowFor | src/components/ResultsChart.tsx:15-20 | One restaurant's row; `ChartDataShape` states its name and counts |
| ResultsChart.ChartData | src/components/ResultsChart.tsx:10-21 | Null exactly for a null session, otherwise as many rows as roster entries |
| ResultsChart.ChartDataShape | src/components/ResultsChart.tsx:10-21 | Null only for a null session; each row carries its restaurant's name and the list lengths of the first matching tally; a missing tally or a non-array field gives 0 |
| ResultsChart.TallyOfAppend | src/components/ResultsChart.tsx:15 | A tally for another restaurant appended later does not change what `find` returns |
| ResultsChart.ForeignTalliesIgnored | src/components/ResultsChart.tsx:14-21 | Tallies for ids outside the roster, appended or prepended, leave the chart unchanged |
| ZipCode.Digits | src/components/ZipCodeInput.tsx:57 | `replace(/\D/g, '')` leaves only ASCII digits and never lengthens the text |
| ZipCode.Sanitize | src/components/ZipCodeInput.tsx:57 | The field value holds only digits, at most 5, and is a prefix of the input's digits |
| ZipCode.SanitizeProps | src/components/ZipCodeInput.tsx:57 | The sanitised value is all digits, at most 5 long, a prefix of the input's digits, and all of them when there are at most 5 |
| ZipCode.DigitsKeepsDigits | src/components/ZipCodeInput.tsx:57 | `replace(/\D/g, '')` keeps every digit as often as it occurs and drops everything else, and the result is an order-preserving subsequence of the input |
| ZipCode.DigitsOfDigits | src/components/ZipCodeInput.tsx:57 | Stripping non-digits from a digit string changes nothing |
| ZipCode.SanitizeIdempotent | src/components/ZipCodeInput.tsx:57 | Sanitising twice is sanitising once |
| ZipCode.CanSubmit | src/components/ZipCodeInput.tsx:24 | The submit guard passes exactly when the value has at least 5 characters |
| ZipCode.ButtonEnabled | src/components/ZipCodeInput.tsx:69 | The button is enabled exactly when the submit guard passes and nothing is submitting or loading |
| ZipCode.SubmittedZipIsFiveDigits | src/components/ZipCodeInput.tsx:24-26 | A sanitised value passes the submit guard exactly when the input has at least 5 digits, and it is then exactly 5 digits; an enabled button implies the guard passes |
| FilterButton.Reset | src/components/FilterButton.tsx:53-59 | rating 0, priceLevel [1,2,3,4], cuisineTypes [] |
| FilterButton.Toggle | src/components/FilterButton.tsx:68-75 | A selected cuisine is removed entirely; an unselected one is appended at the end; rating and price levels are unchanged |
| FilterButton.ToggleKeepsOthers | src/components/FilterButton.tsx:69-74 | Every other cuisine keeps its number of occurrences, and a removal keeps the rest in order |
| FilterButton.ToggleTwiceRestores | src/components/FilterButton.tsx:71-73 | Toggling an unselected cuisine twice restores the draft |
| FilterButton.ToggleTwiceMovesToEnd | src/components/FilterButton.tsx:71-73 | Toggling a selected cuisine twice moves it, once, to the end |

## Left out

- The Google routes are left out: `/geocode`, the Places fetch inside `/places/nearby`, `/restaurants` and `/autocomplete`. They are network calls to an API outside this model. The routes are classified by `MjsRoute`, and only the processing before and after the fetch is modelled.
- workers/session-api.mjs:397-406 is a dangling fragment of a removed logging call. As written, the module does not parse. The model reads the handler as if the fragment were absent.
- GET `/sessions` (the admin listing loop) is not modelled: it only enumerates the store.
- CORS headers, `Response` construction and JSON encoding are left out. Bodies are structured values.
- Error texts are left out: the message of the catch-all 500 and the `details` of the Places errors.
- Malformed JSON bodies, and the 500 that `request.json()` would then raise, are not modelled.
- `crypto.randomUUID()` and the clock become parameters, and only the millisecond reading is kept, not `toISOString`. A worker's one reading is `now`. The client's two readings are `Readings(newDate, dateNow)`. Nothing says the clock does not go back between the two, so `VotingService.ClientSession` promises a lifetime of at least 24 h only when `newDate <= dateNow`.
- KV expiry is left out: the TTL is recorded in the write log but never acts.
- Concurrent requests on the same key are left out. Each request is one atomic step.
- JSON `null` fields and non-numeric values in the Places filter are not modelled. Examples are a `null` `price_level` and a non-number `minPrice` or price level. Prices are integers and ratings are reals, and NaN is not modelled.
- `VotingApi.CastBallot`: any non-empty string is a truthy `optionId`. Non-string JSON values and the prototype keys of a plain object (`__proto__` and the like) are not modelled.
- `handlePriceLevelChange` (src/components/FilterButton.tsx:61-66) is a plain setter with no logic of its own.
- The React state setters and `handleSubmit`'s async call to `setLocationFromZipCode` are not modelled. Only the guard and the sanitiser are.
- `ResultsChart.ChartData`: `session.restaurants` is always present in the session type, so the `!session.restaurants` branch is reached only for a null session. A record without a roster field is not modelled.
- The browser service's JSON round trip through localStorage is the identity here. Object identity and aliasing of the parsed session are not modelled.
