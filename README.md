# Prebid.js event bus, PubMatic auto-refresh and two bid adapters, in Dafny

This project models four parts of a Prebid.js fork and proves properties about them:

- **The event bus** (`src/events.js`) is the class `Events.EventBus`. It keeps per event name a global handler queue and per-id queues. `on` subscribes and `emit` records the emission. `_dispatch` calls the id's handlers, then the global ones; a throwing handler does not stop the rest. `off` removes handlers with the `forEach`/`splice` loop of the source, including its behaviour on adjacent duplicates. `get` and `getEvents` read the state.
- **The PubMatic auto-refresh module** (`modules/pubmaticAutoRefresh.js`) is the class `AutoRefresh.AutoRefreshModule`. It covers:
  - configuration merging and per-slot configuration;
  - the per-slot data store updated by the GPT render and visibility handlers;
  - the countdown (a value the caller fires later, in place of `setTimeout`);
  - the refresh guards and the key-values handed to the refresh callback.
- **The PubMatic bid adapter** (`modules/pubmaticBidAdapter.js`) is the module `PubMatic`. It covers:
  - slot-name cleaning and slot-parameter parsing;
  - `_parseAdSlot`, as the class `SlotBid`, which rewrites a bid's fields in place;
  - parameter type checks;
  - native asset building and the required-asset check;
  - bid validation;
  - the impression loop of `buildRequests`, which drops the impression of a native bid whose native request is invalid, with its publisher id and `dctr` key-value;
  - deal channels and the user-sync URL.

  The module-level `publisherId` and `isInvalidNativeRequest` are the fields of `PubMaticAdapter`.
- **The AdMatic bid adapter** (`modules/admaticBidAdapter.js`) is the module `AdMatic`. It covers:
  - bid validation and supply-chain validation;
  - `parseSizes`/`parseSize` and `concatSizes`;
  - the request object of each bid;
  - the lookup of a response's request;
  - host stripping, sync-URL selection and consent rewriting in `buildRequests`;
  - the once-only iframe user sync.

  The module-level `hasSynced` and `SYNC_URL` are the fields of `AdMaticAdapter`.

JavaScript values are the datatype `JsValues.Value`, which covers:

- undefined, null, booleans and integers;
- strings, arrays and objects with own properties.

Truthiness, property reads, `String(...)` and `parseInt` follow the language. A read that throws a `TypeError` in the source is an explicit outcome (`AdMatic.Completion.TypeErrorThrown`, `Events.OnResult.TypeErrorThrown`). The string built-ins the code relies on are written out in `JsStrings`:

- `trim`, `split`, `join`;
- `replace` of the first match;
- the regular-expression replaces used on consent strings;
- `parseInt`, decimal printing and `encodeURIComponent`.

Each code path is modelled as written, and each operation written as a loop that mutates state is a method proved against a specification function. Where the written code differs from what its comments or evident intent say, the model keeps both readings and uses the corrected one (see Findings).

## Model

| member | source | states |
|---|---|---|
| Events.EventBus.constructor | src/events.js:12-22 | the bus starts with no handlers and an empty emission log |
| Events.EventBus.On | src/events.js:75-96 | an unknown event name is refused and stores nothing; an id whose string form is `que` throws and stores nothing; otherwise the handler is appended to the id's queue (truthy id) or to the global queue, and no other queue changes |
| Events.EventBus.Emit | src/events.js:31-73 | the emission is appended to the log with its payload (`args[0] \|\| {}`) and extracted id; the calls made are exactly the id queue's handlers then the global queue's handlers, each with all arguments |
| Events.EventBus.Off | src/events.js:104-133 | the event's id queue (truthy id) or global queue is replaced by what the `forEach`/`splice` loop leaves; other events are untouched |
| Events.EventBus.Get | src/events.js:135-138 | `get` hands out the handler map, in which only event names that `on` accepted occur and no id queue is named `que` |
| Events.EventBus.GetEvents | src/events.js:144-153 | the copy holds every logged emission, in order |
| Events.RunCallbacks | src/events.js:65-72 | the loop makes exactly the calls `Invocations` describes, whichever handlers throw |
| Events.SpliceEach | src/events.js:117-128 | the splice loop leaves exactly the queue `Spliced` describes |
| Events.EveryHandlerRuns | src/events.js:65-72 | a throwing handler does not stop dispatch: every function entry is called, in order, with all arguments |
| Events.GlobalSubscriptionRunsLast | src/events.js:80-96 | a handler subscribed without id is delivered last on every later emission |
| Events.ScopedSubscriptionRunsOnMatch | src/events.js:38-63 | an id-scoped handler is delivered exactly when the extracted id is that non-empty string, after its id's earlier handlers and before all global ones; other emissions are unaffected |
| Events.ScopedOnlyDelivery | src/events.js:38-63 | a handler not in the global queue hears an emission iff the extracted id is a truthy string under which it is queued |
| Events.NumericIdNeverMatches | src/events.js:38-63 | a numeric id is stored under its string form but never matches on emission (strict equality) |
| Events.DeliveredAppend | src/events.js:65-72 | the handlers delivered by two queues in a row are those of the first, then those of the second |
| Events.DeliveredContains | src/events.js:65-72 | a handler is delivered by a queue iff it is in it |
| Events.IndexOf | src/events.js:117-128 | `indexOf` returns the first position of the handler |
| Events.Without | src/events.js:105-133 | the reference removal: every copy of the handler removed, other handlers kept in order |
| Events.WithoutAppend | src/events.js:105-133 | removal distributes over concatenation |
| Events.WithoutAbsent | src/events.js:105-133 | removing an absent handler changes nothing |
| Events.WithoutRemoveAt | src/events.js:117-128 | taking out one copy does not change what full removal leaves |
| Events.SpliceKeepsOthers | src/events.js:117-128 | the splice loop keeps every other handler, in order |
| Events.SpliceAbsent | src/events.js:117-128 | the splice loop leaves a queue without the handler unchanged |
| Events.SpliceNeverGrows | src/events.js:117-128 | the splice loop never lengthens the queue |
| Events.SpliceRemovesFirstSeen | src/events.js:117-128 | the first copy the loop visits is removed |
| Events.SpliceRemovesPresent | src/events.js:105-133 | when the handler is queued, `off` removes at least one copy |
| Events.SpliceClearsSeparated | src/events.js:117-128 | without adjacent copies the loop removes every copy it visits |
| Events.SplicedIsWithout | src/events.js:105-133 | without adjacent copies `off` equals the reference removal |
| Events.AdjacentCopySurvives | src/events.js:117-128 | with two adjacent copies one survives: the splice shifts the second onto the index already visited |
| Events.OffGlobal | src/events.js:105-133 | `off` without id changes only the global queue: others keep their order, at least one copy goes, all go when none are adjacent, nothing changes for an absent handler |
| Events.OffScoped | src/events.js:105-133 | `off` with an id changes only that id's queue, with the same guarantees |
| Events.OffTwiceIsOffOnce | src/events.js:105-133 | without adjacent copies, `off` twice is `off` once |
| AutoRefresh.OverlaySlotLaws | modules/pubmaticAutoRefresh.js:297-315 | merging an empty configuration keeps the defaults, and merging the same settings twice is merging them once |
| AutoRefresh.ApplyModuleConfig | modules/pubmaticAutoRefresh.js:297-300 | the module is enabled only when the publisher sets `enabled: true`; without slot settings the default slot settings apply, a refresh limit not given is 999, and without an exclusion function the built-in one applies |
| AutoRefresh.SlotLevelConfigPrecedence | modules/pubmaticAutoRefresh.js:143-157 | a slot without a `customConfig` entry gets exactly the default slot settings; one with an entry gets the entry over the defaults |
| AutoRefresh.SizeLabelInjective | modules/pubmaticAutoRefresh.js:115 | two sizes with the same `WxH` label are the same size |
| AutoRefresh.DefaultExclusionBySize | modules/pubmaticAutoRefresh.js:106-124 | with the built-in exclusion function, a slot with a size listed in `excludeSizes` is excluded |
| AutoRefresh.RefreshBudget | modules/pubmaticAutoRefresh.js:218-223 | once the render count reaches the limit it stays reached as renders go on, and of renders `1..n` exactly `min(n, maximumRefreshCount)` (none for a limit of 0 or less) pass the limit check before a render may start a countdown |
| AutoRefresh.FirstMatchIndex | modules/pubmaticAutoRefresh.js:101-104 | the found ad unit matches the slot's path or element id, and no earlier one does; none found means none matches |
| AutoRefresh.FindAdUnit | modules/pubmaticAutoRefresh.js:198-201 | `find` returns the first matching ad unit, `null` when none matches |
| AutoRefresh.FirstMatchUnique | modules/pubmaticAutoRefresh.js:198-201 | an ad unit that matches, with none before it, is the one found |
| AutoRefresh.KeyValues | modules/pubmaticAutoRefresh.js:51-58 | the key-values set exactly the configured keys: the refresh key with its value, the count key with the render count, and nothing for a `null` key |
| AutoRefresh.KeyValuesAgreeWhenKeysSet | modules/pubmaticAutoRefresh.js:208-211 | with both keys set, the key-values as written equal the intended ones |
| AutoRefresh.NullRefreshKeyIsStillSet | modules/pubmaticAutoRefresh.js:208-211 | as written, a `null` refresh key sets the key `"null"` |
| AutoRefresh.AutoRefreshModule.constructor | modules/pubmaticAutoRefresh.js:13-14 | no handler added, no listener, empty data store |
| AutoRefresh.AutoRefreshModule.Init | modules/pubmaticAutoRefresh.js:317-340 | only the first call has an effect: it merges the configuration, and listens (with the default slot settings picked) iff the module is enabled |
| AutoRefresh.AutoRefreshModule.RenderEnded | modules/pubmaticAutoRefresh.js:225-258 | an excluded slot changes nothing; otherwise the slot's entry is reset with one more render, and a countdown starts iff the limit is not reached and the start threshold is 0 |
| AutoRefresh.AutoRefreshModule.RefreshSlotIfNeeded | modules/pubmaticAutoRefresh.js:177-216 | a refresh is requested iff the entry exists, is in view enough, its countdown is over, no refresh is in progress and an ad unit matches; it marks the entry and passes the key-values |
| AutoRefresh.AutoRefreshModule.CountdownElapsed | modules/pubmaticAutoRefresh.js:254-256 | for the countdown's slot, configuration and the time it fires: a refresh is requested iff the slot has an entry that is in view enough, whose countdown is over, with no refresh in progress and a matching ad unit; the request carries that unit and the key-values, and marks the entry; otherwise nothing changes |
| AutoRefresh.AutoRefreshModule.VisibilityChanged | modules/pubmaticAutoRefresh.js:260-295 | an excluded or unknown slot changes nothing; otherwise the view percentage is recorded, then a countdown starts once the threshold is met, or a started countdown leads to a refresh check |
| PubMatic.CleanSlot | modules/pubmaticBidAdapter.js:270-275 | the cleaned slot has no surrounding whitespace; a non-string gives `''` |
| PubMatic.CleanSlotIdempotent | modules/pubmaticBidAdapter.js:270-275 | cleaning twice is cleaning once |
| PubMatic.CleanSlotOfPadded | modules/pubmaticBidAdapter.js:270-275 | cleaning removes exactly the whitespace padding |
| PubMatic.Take | modules/pubmaticBidAdapter.js:255-256 | `slice(0, n)` keeps the first at most `n` elements |
| PubMatic.TrimAll | modules/pubmaticBidAdapter.js:255-256 | every zone id is trimmed, none dropped |
| PubMatic.ZoneIdsList | modules/pubmaticBidAdapter.js:255-256 | the zone ids read back are the first (at most 50) given ids, each trimmed |
| PubMatic.ZoneIdsIdempotent | modules/pubmaticBidAdapter.js:255-256 | normalising zone ids twice is normalising them once |
| PubMatic.ParseSlotParam | modules/pubmaticBidAdapter.js:248-268 | a non-string is unset, an unlisted parameter keeps its text, an integer result is never 0 |
| PubMatic.YobRoundTrip | modules/pubmaticBidAdapter.js:263-264 | a year of birth is read back as that integer, and 0 is dropped |
| PubMatic.ParsedAdSlotSized | modules/pubmaticBidAdapter.js:277-314 | a slot `unit@AxB[:index]` gives that unit, `parseInt` of both dimensions, the index or `'0'`, and deletes `sizes` |
| PubMatic.ParsedAdSlotRoundTrip | modules/pubmaticBidAdapter.js:277-314 | `unit@WxH:index` is read back as its unit, width, height and index |
| PubMatic.ParsedAdSlotDefaultIndex | modules/pubmaticBidAdapter.js:279-291 | without `:index` the index is `'0'` |
| PubMatic.ParsedAdSlotRejected | modules/pubmaticBidAdapter.js:293-299 | without `@` and without a sizes array the slot is rejected: no ad unit, 0x0 |
| PubMatic.ParsedAdSlotFromSizes | modules/pubmaticBidAdapter.js:310-313 | without `@`, the width and height come from the first entry of `sizes` |
| PubMatic.ParsedAdSlotBadSize | modules/pubmaticBidAdapter.js:301-306 | a size part that is not `AxB` leaves 0x0 and keeps `sizes` |
| PubMatic.SlotBid.constructor | modules/pubmaticBidAdapter.js:277-314 | the bid starts with the given slot and sizes |
| PubMatic.SlotBid.ParseAdSlot | modules/pubmaticBidAdapter.js:277-314 | the bid's fields are rewritten in place to the cleaned slot and the parsed fields |
| PubMatic.ParseSlotText | modules/pubmaticBidAdapter.js:279-313 | the steps after cleaning compute exactly the parsed fields |
| PubMatic.CheckParamDataType | modules/pubmaticBidAdapter.js:381-409 | a value of the declared type is kept, any other becomes `undefined` |
| PubMatic.CheckParamDataTypeIdempotent | modules/pubmaticBidAdapter.js:381-409 | a checked value passes the same check unchanged |
| PubMatic.AssetFor | modules/pubmaticBidAdapter.js:424-551 | a built asset has a positive id and the `required` flag of its parameter |
| PubMatic.AssetKeyOfId | modules/pubmaticBidAdapter.js:424-551 | each asset's id names the key it was built from |
| PubMatic.PlainAssetKeyOfId | modules/pubmaticBidAdapter.js:51-183 | each unconditional asset id maps back to its key |
| PubMatic.AssetIdIdentifiesKey | modules/pubmaticBidAdapter.js:424-551 | distinct keys give distinct asset ids |
| PubMatic.RequiredAssetFor | modules/pubmaticBidAdapter.js:214-230 | the required ids come exactly from sponsoredBy, a title with a length and an image with sizes |
| PubMatic.CountPresent | modules/pubmaticBidAdapter.js:559-570 | the count of present required ids is at most the number of ids |
| PubMatic.CountPresentRequired | modules/pubmaticBidAdapter.js:559-575 | all three required ids are counted iff all three are present |
| PubMatic.NativeAssetsHasId | modules/pubmaticBidAdapter.js:424-551 | an id is among the assets iff some parameter builds an asset with it |
| PubMatic.NativeRequestValidity | modules/pubmaticBidAdapter.js:424-576 | a native request is valid iff there is a sponsoredBy, a title with a length and an image with sizes |
| PubMatic.PubMaticAdapter.constructor | modules/pubmaticBidAdapter.js:239-240 | the publisher id starts as 0 and no native request is invalid |
| PubMatic.PubMaticAdapter.CountRequiredAssets | modules/pubmaticBidAdapter.js:559-570 | the nested loop counts the required ids present, and reaches 3 iff all are present |
| PubMatic.PubMaticAdapter.CreateNativeRequest | modules/pubmaticBidAdapter.js:424-576 | the assets are built in order, and the invalid flag is set iff a required asset is missing |
| PubMatic.IsBidRequestValid | modules/pubmaticBidAdapter.js:773-793 | a bid is valid iff it has params with a string `publisherId`, a string `adSlot`, and non-empty `mimes` when it is a video bid |
| PubMatic.KeptSegments | modules/pubmaticBidAdapter.js:889-893 | kept `dctr` segments are non-empty and trimmed |
| PubMatic.AccumulatedIsJoin | modules/pubmaticBidAdapter.js:889-893 | the accumulation is the kept segments joined by `\|`, plus a final `\|` |
| PubMatic.KeptSegmentsHaveNoBar | modules/pubmaticBidAdapter.js:889-893 | segments of a split by `\|` contain no `\|` |
| PubMatic.DctrKeyValue | modules/pubmaticBidAdapter.js:884-900 | `key_val` is the non-blank trimmed segments joined by `\|`; it splits back into them and never ends in `\|` |
| PubMatic.AccumulationsAgree | modules/pubmaticBidAdapter.js:889-893 | with no whitespace-only segment, the accumulation as written equals the corrected one |
| PubMatic.DctrReadingsAgree | modules/pubmaticBidAdapter.js:884-900 | with no whitespace-only segment, `key_val` as written equals the corrected one |
| PubMatic.BlankDctrSegmentLeavesTrailingBar | modules/pubmaticBidAdapter.js:892-899 | as written, `a\| ` gives `a\|`, which ends in `\|` |
| PubMatic.BlankDctrSegmentDropped | modules/pubmaticBidAdapter.js:884-900 | corrected, `a\| ` gives `a` |
| PubMatic.NormalizeDctr | modules/pubmaticBidAdapter.js:886-900 | a non-empty string `dctr` gives its `key_val`, anything else none |
| PubMatic.AccumulateSegments | modules/pubmaticBidAdapter.js:891-893 | the segment loop computes the accumulation |
| PubMatic.DealChannel | modules/pubmaticBidAdapter.js:964-966 | the deal channel is set iff `ext.deal_channel` is truthy, and is `PMP`, `PREF`, `PMPG` or `null` |
| PubMatic.DealChannelKeys | modules/pubmaticBidAdapter.js:233-237 | the channel table has keys for exactly 1, 5 and 6 |
| PubMatic.DealChannelOfNumber | modules/pubmaticBidAdapter.js:233-237 | channel 1 is PMP, 5 is PREF, 6 is PMPG, and any other non-zero number gives `null` |
| PubMatic.EncodedConsent | modules/pubmaticBidAdapter.js:987 | the encoded consent holds no `&`, `#` or `=` that could break the URL |
| PubMatic.SyncUrl | modules/pubmaticBidAdapter.js:982-988 | the sync URL is the fixed prefix and the publisher id, then, with consent data, the `gdpr` flag and the encoded consent |
| PubMatic.PlainConsentSentVerbatim | modules/pubmaticBidAdapter.js:982-988 | a consent string of unreserved characters is sent verbatim |
| PubMatic.PubMaticAdapter.GetUserSyncs | modules/pubmaticBidAdapter.js:981-998 | an iframe sync to the sync URL iff iframe syncing is enabled |
| PubMatic.Imps | modules/pubmaticBidAdapter.js:812-845 | there are at most as many impressions as bids, each with a non-empty tag id |
| PubMatic.NativeValidityOfFields | modules/pubmaticBidAdapter.js:424-576 | whatever order a `nativeParams` record's keys are visited in, its native request is valid iff the record has `sponsoredBy`, a `title` with a length and an `image` with sizes |
| PubMatic.InvalidNativeBidsSendNothing | modules/pubmaticBidAdapter.js:618-644 | native bids whose native requests miss a required asset contribute no impression, so a batch of only such bids sends nothing |
| PubMatic.PubIdOfValidBids | modules/pubmaticBidAdapter.js:827 | over valid bids the publisher id is a string whenever an impression exists |
| PubMatic.DctrCountBounded | modules/pubmaticBidAdapter.js:836-839 | at most one `dctr` is counted per bid, and a count above zero comes from a bid with a standard slot that carries `dctr` |
| PubMatic.BuildStep | modules/pubmaticBidAdapter.js:812-845 | one more bid extends the impressions, the publisher id, the `dctr` count and the native flag by that bid alone; the publisher id and `dctr` count take every standard slot, even one whose native impression is then dropped |
| PubMatic.PubMaticAdapter.NativeParamEntries | modules/pubmaticBidAdapter.js:428-429 | the `for...in` visits each own key of the record once, with its value |
| PubMatic.PubMaticAdapter.SlotImp | modules/pubmaticBidAdapter.js:578-645 | one cloned bid's slot is parsed in place; a non-standard slot gives nothing; a native bid builds its native request, which sets the invalid flag, and gives no impression when that request is invalid |
| PubMatic.PubMaticAdapter.AddBid | modules/pubmaticBidAdapter.js:812-845 | one loop turn adds exactly that bid's contribution, and leaves the flag its native request sets |
| PubMatic.PubMaticAdapter.CollectImps | modules/pubmaticBidAdapter.js:812-845 | the loop computes the impressions, the publisher id and the `dctr` count, and leaves the invalid flag of the last native bid with a standard slot |
| PubMatic.PubMaticAdapter.BuildRequests | modules/pubmaticBidAdapter.js:801-910 | no impression means no request and an unchanged publisher id; otherwise the publisher id is stored trimmed, and the request carries the impressions and the first bid's `key_val`; either way the invalid flag is the one the last native bid set |
| AdMatic.ValidateIdOfNumber | modules/admaticBidAdapter.js:401-403 | a number, or its decimal text, is a valid network id iff it is positive |
| AdMatic.IsBidRequestValid | modules/admaticBidAdapter.js:35-47 | a bid is valid iff it has params, `networkId` parses to a positive integer and `host` is a string |
| AdMatic.EveryNodeComplete | modules/admaticBidAdapter.js:248-251 | true iff every node is an object with truthy `asi`, `sid` and `hp` |
| AdMatic.ValidateSchain | modules/admaticBidAdapter.js:244-252 | false without `nodes`; true iff `nodes` is an array whose every node is complete |
| AdMatic.MapSchain | modules/admaticBidAdapter.js:229-237 | `null` for a missing chain; otherwise the chain itself iff it validates, else `null` |
| AdMatic.MapSchainKeepsCompleteChains | modules/admaticBidAdapter.js:229-252 | a chain is passed on iff every node names its `asi`, `sid` and `hp` |
| AdMatic.ParseSizes | modules/admaticBidAdapter.js:333-341 | `undefined`/`null` give `[]`; a value whose first entry is not a list is wrapped in a one-element list; an array is either kept or wrapped, never rejected |
| AdMatic.ParseSizesOfPairs | modules/admaticBidAdapter.js:333-341 | a list of pairs is kept in order, and a single pair becomes a one-element list |
| AdMatic.ParseSizesIdempotent | modules/admaticBidAdapter.js:333-341 | parsing a parsed list again changes nothing |
| AdMatic.ParseSize | modules/admaticBidAdapter.js:343-345 | `parseSize` throws exactly for `null`/`undefined` |
| AdMatic.ParseSizeRoundTrip | modules/admaticBidAdapter.js:343-345 | the `WxH` label of a pair splits back into the two numbers |
| AdMatic.ChildSizes | modules/admaticBidAdapter.js:388-392 | one `{w, h}` record per entry, in order, and a throw iff an entry is `null`/`undefined` |
| AdMatic.FlattenSizesIsConcatenation | modules/admaticBidAdapter.js:385-395 | without a throw, the flattened sizes are the lists' records one after the other |
| AdMatic.ConcatSizesOf | modules/admaticBidAdapter.js:379-399 | `undefined` iff neither banner sizes, video sizes nor the player size is an array |
| AdMatic.ConcatSizes | modules/admaticBidAdapter.js:379-399 | the accumulating loops compute exactly the flattened sizes |
| AdMatic.PushChildSizes | modules/admaticBidAdapter.js:388-392 | the `forEach` pushes one record per entry, or throws at a `null` entry |
| AdMatic.ChildSizesPrefixThrows | modules/admaticBidAdapter.js:388-392 | a throw on a prefix of the entries is a throw on all of them |
| AdMatic.FlattenSizesThrows | modules/admaticBidAdapter.js:385-395 | a throw in one list is a throw of the whole `reduce` |
| AdMatic.BidIdParameter | modules/admaticBidAdapter.js:368 | the id is the bid id when truthy, else `''` |
| AdMatic.RequestObjectOf | modules/admaticBidAdapter.js:347-373 | the type is native over video over banner; a native request asks for 1x1; otherwise the size is `concatSizes`; the id is the bid id |
| AdMatic.BuildRequestObject | modules/admaticBidAdapter.js:347-373 | filling the object field by field gives exactly that request object |
| AdMatic.RequestObjects | modules/admaticBidAdapter.js:55 | the `map` gives one request object per bid, in order |
| AdMatic.BuildRequestObjects | modules/admaticBidAdapter.js:55 | the loop builds the same list, or throws where the `map` throws |
| AdMatic.RequestObjectsThrow | modules/admaticBidAdapter.js:55 | a throw for one bid is a throw of the whole `map` |
| AdMatic.AssociatedBidRequest | modules/admaticBidAdapter.js:288-295 | the request found is the first with the bid's id (`===`); none iff no request has it |
| AdMatic.GetAssociatedBidRequest | modules/admaticBidAdapter.js:288-295 | the loop with its early return finds exactly that request |
| AdMatic.StripHostOfUrl | modules/admaticBidAdapter.js:147-148 | a host written bare, with `https://` or `http://`, and with or without a trailing `/`, is reduced to the bare name |
| AdMatic.HttpsAbsentFromHttpUrl | modules/admaticBidAdapter.js:147 | removing `https://` leaves an `http://` URL alone |
| AdMatic.DefaultSyncUrlForOthers | modules/admaticBidAdapter.js:126-145 | a bidder name gets the default sync page iff it is not one of the five aliases |
| AdMatic.AliasSyncUrlsDistinct | modules/admaticBidAdapter.js:126-145 | each alias's sync page belongs to no other bidder name |
| AdMatic.UrlSafeConsent | modules/admaticBidAdapter.js:90-91 | the rewritten consent has `+` as `-` and `/` as `_`, position by position; what is cut off is only `=` characters, and the character before them is not `=`, so the whole trailing run goes |
| AdMatic.UrlSafeConsentIdempotent | modules/admaticBidAdapter.js:90-91 | rewriting twice is rewriting once |
| AdMatic.ConsentForRequest | modules/admaticBidAdapter.js:89-95 | no consent string gives `''`; a string is rewritten; any other truthy value throws |
| AdMatic.ConsentOf | modules/admaticBidAdapter.js:89-95 | a consent is set iff GDPR applies, and it is the rewritten string |
| AdMatic.SchainOf | modules/admaticBidAdapter.js:113-118 | the first bid's chain is passed on iff it is truthy and validates; a falsy chain gives none, and a chain whose validation throws throws |
| AdMatic.ServerRequestOf | modules/admaticBidAdapter.js:53-148 | an empty bid list throws; otherwise the request carries the request objects, the URL from the stripped host, the network id, a consent iff GDPR applies, and only a valid chain |
| AdMatic.SyncAtMostOnce | modules/admaticBidAdapter.js:152-164 | without a reset at most one call syncs: one iff none has synced yet and some call has iframe syncing enabled |
| AdMatic.AdMaticAdapter.constructor | modules/admaticBidAdapter.js:15 | nothing synced and an empty sync URL |
| AdMatic.AdMaticAdapter.ResetUserSync | modules/admaticBidAdapter.js:221-223 | the next sync is allowed again |
| AdMatic.AdMaticAdapter.GetUserSyncs | modules/admaticBidAdapter.js:152-164 | a sync iff none happened yet and iframe syncing is enabled; it goes to the sync URL plus the query string and sets the flag |
| AdMatic.AdMaticAdapter.BuildRequests | modules/admaticBidAdapter.js:53-148 | the result is that request; on success the sync URL is the one for the first bid's bidder name, and a throw leaves it unchanged |

## Left out

- `modules/prebidJSDebugUI.js` is not part of this model. It only copies payloads into a host global and flips a flag.
- Logging (`logMessage`, `logWarn`, `logError`) is left out, since it changes no result.
- Time, timers and GPT:
  - `timestamp()` is a parameter `now`.
  - A `setTimeout` countdown is a returned `Countdown` value, which the caller fires through `CountdownElapsed`.
  - The GPT slot is a value with its path, element id and sizes.
  - `window.innerWidth`/`innerHeight` are not modelled.
- Publisher-supplied functions: `callbackFunction`, `slotIdFunctionForCustomConfig`, `gptSlotToPbjsAdUnitMapFunction` and `excludeCallbackFunction` are the built-in ones, or a given exclusion verdict. Calling publisher code is foreign.
- AutoRefresh.AutoRefreshModule.RefreshSlotIfNeeded: the key-values it hands on are the corrected `KeyValues` of "## Findings". For `kvKeyForRefresh: null` it sets no refresh key, where the source sets the property `"null"` (`NullRefreshKeyIsStillSet`).
- AutoRefresh.AutoRefreshModule.VisibilityChanged: the refresh it leads to carries the corrected `KeyValues`, for the same reason as `RefreshSlotIfNeeded`.
- AutoRefresh.AutoRefreshModule.CountdownElapsed: the refresh it leads to carries the corrected `KeyValues`, for the same reason as `RefreshSlotIfNeeded`.
- AutoRefresh.AutoRefreshModule.CountdownElapsed: the model re-reads the slot's current entry at fire time, as the source's closure does. It does not prove which render a stale countdown belongs to.
- AutoRefresh.RefreshBudget: bounds the renders that may start a countdown, not the refreshes. No bound on the number of refreshes is proved, and the model, like the source, gives none. `refreshSlotIfNeeded` has no limit check, and a countdown started before the limit can fire after it. Example with `maximumRefreshCount: 1`, both thresholds 0 and a countdown of 10:
  - a render at 0 starts countdown c1;
  - a visibility change at 10 requests a refresh;
  - the render at 11 reaches the limit;
  - c1 firing at 12 requests a second refresh.
- `events.js` ids named like other `Object.prototype` properties (other than `que`) are not modelled. They would read inherited members.
- Numbers are integers. `parseFloat` in `_parseSlotParam` (`kadfloor`, `lat`, `lon`) is kept as the raw text (`DecimalText`), because floating point is not modelled.
- PubMatic.ParseSlotParam: the float parameters are not converted, for the same reason.
- Property reads on `null`/`undefined` give `undefined` in `JsValues.Get`. The AdMatic model makes each such read that throws in the source an explicit `TypeErrorThrown`, once the bid itself is a record. The PubMatic model does not model these throws; where the source throws, it returns a value. The cases are below.
- PubMatic.IsBidRequestValid: `video: null` throws at `bid.params.video.hasOwnProperty` in the source; the model returns `false`.
- PubMatic.AssetFor: a `title`, `image` or `icon` entry that is `null` or `undefined` throws at `params[key].len` or `params[key].sizes` in the source; the model builds no asset.
- PubMatic.AssetFor: every other recognised entry that is `null` or `undefined` also throws in the source, at `params[key].required`. This covers `sponsoredBy`, `body`, `rating`, `likes`, `downloads`, `price`, `saleprice`, `phone`, `address`, `desc2`, `displayurl`, `cta`, `video`, `ext` and `logo`. The model builds the asset. So `NativeParamsValid` accepts `{sponsoredBy: null, title: {len: 80}, image: {sizes: [300, 250]}}` and `ImpFor` gives an impression, where `buildRequests` throws.
- PubMatic.PubMaticAdapter.SlotImp: a video bid without `mediaTypes.video.playerSize` throws at `bid.mediaTypes.video.playerSize[0]` in the source. The model, through `ImpFor`, gives an impression, because the video sub-object is not modelled.
- PubMatic.SlotBid.ParseAdSlot: `sizes: [null]` throws at `bid.sizes[0][0]` in the source; the model leaves the width and height unparsed.
- AdMatic.IsBidRequestValid: a `null` or `undefined` bid throws at `bid.bidder` in the source; the model returns `false`.
- The PubMatic request: only the impressions (`id`, `tagid`, `pmZoneId`), the publisher id and `site.ext.key_val` are modelled. Left out are:
  - referrer and page data;
  - custom parameters, currency, the video, banner and native sub-objects;
  - Digitrust and user ids;
  - `transformBidParams`.
- PubMatic `interpretResponse` is not part of this model, apart from the deal-channel mapping. It needs the server response and `_parseNativeResponse`.
- AdMatic `interpretResponse` is not part of this model. It calls `isUrl` (the `URL` constructor), `Renderer.install` and `interpretNativeAd`, which are foreign.
- `enrichSlotWithFloors` is not part of this model. It calls `getFloor`, which is foreign.
- The AdMatic payload beyond imps, URL, publisher id, bidder, consent and supply chain is left out. This covers site, `ortb2`, `tmax`, currency, COPPA, GPP, US privacy and eids.
- `getCurrencyFromBidderRequest`, `getUserSyncParams` and `formatQS` are foreign. The formatted query string is a parameter of `GetUserSyncs`.
- AdMatic.BidIdParameter: `getBidIdParameter` lives in `src/utils.js`, which is not part of this model. It is modelled as `bid.bidId || ''`.
- AdMatic.AdMaticAdapter.BuildRequests: a `bidderRequest` that is itself missing would throw on `bidderRequest.timeout`. Here the consent data is a parameter, so that case is not represented.
- PubMatic.NormalizeDctr: the `key_val` it gives is the corrected `DctrKeyValue` of "## Findings". For `dctr` `"a| "` it gives `"a"`, where the source gives `"a|"` (`BlankDctrSegmentLeavesTrailingBar`).
- PubMatic.AccumulateSegments: the loop skips whitespace-only segments, which the source's `val.length > 0` keeps. This is the corrected reading of "## Findings".
- PubMatic.PubMaticAdapter.BuildRequests: `key_val` is the corrected reading, for the same reason as `NormalizeDctr`.
- PubMatic.PubMaticAdapter.NativeParamEntries: the keys of a `nativeParams` record come in an unspecified order, because records are maps. The order of the assets is therefore not fixed, though the validity verdict does not depend on it. A truthy `nativeParams` that is not a record has no keys here. A string or array has index keys in the source, but none of them names an asset, so the request is invalid either way.
- Events.Handler: `null`, `undefined` and every other non-function entry are the one value `NoHandler`. So `Off` with `undefined` also removes `null` entries, where the source compares them with `===` and keeps them. Dispatch skips all of them in both.
- Events.EventBus.Get: the returned map is a value, so the aliasing of the live handler map is not modelled. A caller that changes the returned object would change the bus in the source.
- Events.EventBus.Emit: handlers are opaque values that cannot call `on`, `off` or `emit`. In the source the log record is pushed before dispatch, so a handler that emits re-entrantly adds more records. Those records are not modelled.
- Strings are sequences of Unicode scalar values, while JavaScript strings are UTF-16 code units. `.length`, indexing and `encodeURIComponent` on lone surrogates or astral characters are therefore not modelled exactly.
- Deep cloning (`utils.deepClone`) is a fresh `SlotBid` per bid, built from the bid's values.

## Findings

| source | as written | input that shows it | evidently intended | confidence | as-written member | corrected member |
|---|---|---|---|---|---|---|
| modules/pubmaticAutoRefresh.js:51-58, 208-211 | `KeyValuePairs[slotConf['kvKeyForRefresh']] = ...` uses the setting as a property name even when it is `null` | `kvKeyForRefresh: null` (documented as "set it to null to not set it") | a `null` key sets no targeting key (as written, the slot gets the key `"null"` with value `"1"`) | not executed | AutoRefresh.NullRefreshKeyIsStillSet | AutoRefresh.KeyValues |
| modules/pubmaticBidAdapter.js:889-899 | a segment is kept when `val.length > 0` and then trimmed, so a whitespace-only segment adds an empty part and a `\|` | `dctr = "a\| "` gives `key_val` `"a\|"` | blank segments are skipped and `key_val` never ends in `\|` (`"a"`) | not executed | PubMatic.BlankDctrSegmentLeavesTrailingBar | PubMatic.BlankDctrSegmentDropped |
