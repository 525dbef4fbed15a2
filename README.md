# Store-map geocoder: a verified model

`app.js` is a browser application that places a chain's Brazilian stores on a
map. It reads a spreadsheet of stores (name, CEP postal code, state, city,
district, street, number, head count). Each record is resolved to
coordinates with a geocoding cache in `localStorage`. A miss first asks the
ViaCEP postal service for the missing address parts, then falls back through
four structured Nominatim queries, from precise to approximate. While a batch
is resolved, the app rate-limits itself. Out of the map, the app can:

- spread coincident markers on rings;
- export the enriched batch as CSV and import it back;
- merge a cache exported as JSON;
- correct a store's position by hand.

This project models that logic in Dafny and proves what the code promises.

| module | models |
|---|---|
| `Options` | the `Option` type |
| `Text` | `String(v).trim()` (`safeStr`), `toUpperCase`/`toLowerCase`, `replace`/`replaceAll` on a character |
| `Normalize` | `normalizeCEP`, `cepDigits`, `cleanNumero`, `buildStreet` |
| `CacheKey` | `makeCacheKey` |
| `Records` | the store record, JavaScript numbers and `isFinite(Number(x))`, cache entries, the mode tags |
| `Resolver` | `geocodeBest`'s field preparation and four-tier cascade; the approximate/precise label |
| `Storage` | the two `localStorage` caches and the clock, as class `Env`, with these operations: `viaCepLookup`, `mapear`'s resolve loop, `importCacheJson`, `importEnrichedCSV`'s write-back, `saveCorrection` and `resetCache` |
| `Jitter` | `applyVisualJitter`, in place on the batch array |
| `Csv` | `toCsvValue`/`exportCSV`, `parseCSV` (a loop over a character state machine), the record mapping of `importEnrichedCSV`, and the export→import round trip |

Some code mutates state, and it is modelled that way:

- `parseCSV`, `exportCSV` and `applyVisualJitter` are methods with loops.
- The effectful operations are methods of `Storage.Env`, whose fields are the two stored caches, a trace of the requests and waits made, and the clock.
- Each method is proved against a function of its inputs and old state. Lemmas state what the code promises about those functions.

The following are function-typed parameters (oracles), not code:

- the network (Nominatim's answer to one query, ViaCEP's reply);
- `sanitizeAddress`;
- the printing of numbers (`String(hc)`, `String(lat)`);
- the `Number(...)` and `toNumberBR` readings of text;
- the grouping key (`toFixed(5)` of both coordinates);
- the ring displacement with its sines and cosines.

The code decides whether a record or an entry has a position with
`isFinite(Number(x))`. `Number("")` and `Number(null)` are 0, so a blank
coordinate passes that test and is read as 0. The operations are modelled
that way (`Records.PassesFiniteCheck`). The stricter reading, where only a
finite number counts (`Records.IsCoordinate`), appears only in the corrected
members of the findings at the end.

## Model

| member | source | states |
|---|---|---|
| Text.Trim | app.js:85 | the trimmed text has no white space at either end and is no longer than the input |
| Text.TrimIsInfix | app.js:85 | the trimmed text is exactly the input with its leading and trailing white space cut off |
| Text.TrimIdempotent | app.js:85 | trimming trimmed text changes nothing |
| Text.ToUpperIdempotent | app.js:137-140 | upper-casing an upper-cased field changes nothing |
| Text.UpperTrimCanonical | app.js:137-140 | an upper-cased trimmed field is already trimmed and upper-cased, so the key's `safeStr(x).toUpperCase()` is stable |
| Text.ReplaceAbsentChar | app.js:96 | replacing a character that does not occur gives the text back |
| Normalize.FirstCepMatch | app.js:88 | the position found is a match of `\b\d{5}-?\d{3}\b` and no earlier position matches |
| Normalize.CepGroupsFormat | app.js:88-89 | the two capture groups of a match, joined by `-`, are five digits, a hyphen and three digits |
| Normalize.NormalizeCEP | app.js:87-90 | the result is `""` or of the form `DDDDD-DDD` |
| Normalize.NormalizeCEPLeftmost | app.js:87-90 | `""` exactly when the trimmed text holds no match; otherwise the groups of the leftmost match |
| Normalize.NormalizeCEPOfCanonical | app.js:87-90 | a code already in `DDDDD-DDD` form is kept as it is |
| Normalize.NormalizeCEPIdempotent | app.js:87-90 | normalising a normalised CEP changes nothing |
| Normalize.NormalizeCEPFindsCode | app.js:87-90 | a code with 8 digits or 5+3 digits, standing alone after text without digits, is found and written `DDDDD-DDD` |
| Normalize.CepDigits | app.js:91 | `""` exactly when `normalizeCEP` gives `""`; otherwise exactly eight digits |
| Normalize.CleanNumero | app.js:92-97 | the result is empty or starts with a digit, and every character is a digit, a letter, `.`, `-` or `/` |
| Normalize.CleanNumeroLeftmost | app.js:92-97 | `""` exactly when the trimmed text has no digit; otherwise the maximal token of that class starting at the first digit |
| Normalize.CleanNumeroHasNoComma | app.js:95-96 | no comma survives the match, so the comma replacement never applies |
| Normalize.CleanNumeroIdempotent | app.js:92-97 | cleaning a cleaned number changes nothing |
| Normalize.BuildStreet | app.js:282-288 | `""` exactly when both halves are empty; `log, num` when both are present; otherwise the half that is present |
| CacheKey.Canonical | app.js:135-140 | the key's CEP field is `""` or `DDDDD-DDD`, and neither the CEP nor the number can hold a `:` |
| CacheKey.MakeCacheKey | app.js:134-142 | the key is never longer than 420 characters; it is the joined canonical fields when they fit, and otherwise their first 420 characters |
| CacheKey.KeyIgnoresOtherFields | app.js:134-142 | two records that agree on cep, numero, uf, cidade, endereco and bairro get the same key, whatever their other fields |
| CacheKey.KeyOfNormalizedFields | app.js:134-142 | normalising the six fields first (as the editor does) leaves the key unchanged |
| CacheKey.JoinedSameCepAndNumber | app.js:141 | the `::` join can be split back: equal joins have equal CEP and number fields |
| CacheKey.EqualKeysSameCepAndNumber | app.js:134-142 | two keys that were not truncated and are equal come from the same normalised CEP and number |
| CacheKey.KeyWhole | app.js:141 | the key keeps every canonical field when the join is at most 420 characters long |
| Records.FiniteCheckAcceptsBlank | app.js:512 | `isFinite(Number(x))` accepts every coordinate, and the only non-coordinate it accepts is a blank one, which it reads as 0 |
| Records.AsNumber | app.js:850 | `Number(x)` written back into a slot is a number equal to `Number(x)`; it is a finite coordinate exactly when `x` passes `isFinite(Number(x))`, and a finite coordinate is written back unchanged |
| Records.TextCoord | app.js:837-838 | a blank cell gives a blank coordinate; for any other text the slot holds what `Number()` makes of it (see "## Left out") |
| Records.Coord | app.js:679 | a number written into a record is a finite coordinate with that value |
| Records.OrElse | app.js:297-300 | `a \|\| b` on text: `a` when it is not empty, otherwise `b` |
| Resolver.RecordWinsOverLookup | app.js:290-301 | a field present in the record is the one the tiers see, whatever the postal lookup returns; the lookup's value is used only where the record's is blank |
| Resolver.FirstSuccessMeaning | app.js:304-328 | trying the attempts in order, the requests made are those up to the first hit, and the result is that hit tagged with its mode; with no hit, every attempt was requested and the result is null |
| Resolver.CascadeIsFirstSuccess | app.js:304-328 | the four guarded tiers behave exactly as trying, in order, the tiers whose guards hold |
| Resolver.EligibleGuards | app.js:305-323 | each tier is attempted exactly when its guard fields are non-empty, and attempts come in tier order 1 to 4 |
| Resolver.EligibleModes | app.js:304-326 | every attempted tier carries one of the four modes, and its mode reads as approximate exactly when its query has no street |
| Resolver.FourTiersTagged | app.js:306-325 | the street tiers' modes read as precise and the postal tiers' modes as approximate |
| Resolver.CascadeResult | app.js:304-328 | at most four requests are made; a result carries a tier mode and the coordinates of the last request, which hit; a null result means every request missed; with neither CEP nor street, nothing is requested |
| Resolver.ManualAndFailedReadPrecise | app.js:494 | the label looks only at the `postalcode` prefix: `manual_...`, `manual`, `cache` and `falha` read as precise |
| Storage.Load | app.js:123-130 | a missing or unparsable store reads as the empty map |
| Storage.MalformedCepMakesNoRequest | app.js:266-268 | a CEP that does not normalise to eight digits gives null with no request and no change |
| Storage.FoundIsCachedAt | app.js:269-279 | an uncached postal code that ViaCEP finds is requested once, answered and stored; asking again gives the same answer with no request |
| Storage.FoundIsCached | app.js:266-279 | the same, stated for any CEP text that normalises |
| Storage.NotFoundIsNotCachedAt | app.js:273-276 | a failed or `erro` reply gives null and stores nothing, so asking again makes the request again |
| Storage.NotFoundIsNotCached | app.js:266-276 | the same, stated for any CEP text that normalises |
| Storage.LookupOnlyRequests | app.js:266-281 | the postal lookup only appends requests: no wait, no change to the geocode cache |
| Storage.GeoBestOnlyRequests | app.js:289-329 | `geocodeBest` only appends requests |
| Storage.HitAt | app.js:670-674 | a cache hit (an entry whose coordinates pass the global `isFinite`, blanks included) copies the entry's coordinates into the record as they are, with mode the entry's or `cache` and query the entry's or `""`, and makes no request, no wait and no write |
| Storage.HitMakesNoRequest | app.js:668-674 | the same, under the record's own key |
| Storage.MissAt | app.js:675-689 | on a miss, both waits (1100 ms and 250 ms) follow the resolver's requests; a success is written under the key and persisted, and the record takes exactly its latitude, longitude, mode and query, nothing else changing; a failure marks the record `falha`, clears its query and leaves the cache unchanged |
| Storage.MissWaitsAndWritesBack | app.js:675-689 | the same, for `geocodeBest` under the record's own key |
| Storage.TurnWaits | app.js:670-689 | a hit adds no wait; a miss adds exactly two and advances the clock by 1350 ms |
| Storage.ResolvedHitsAt | app.js:670-682 | after a successful turn the entry under the key passes the hit test and holds the record's coordinates |
| Storage.ResolvedItemHitsNextTime | app.js:666-691 | resolving a record that succeeded a second time is a hit that changes nothing and gives the same coordinates |
| Storage.BlankEntryHits | app.js:670-674 | an entry whose coordinates are blank is a hit: the record takes the blanks and no request is made |
| Storage.Run | app.js:666-691 | after `i` turns, `i` records have been processed, and `ok + fail == i` |
| Storage.RunStep | app.js:666-691 | one more turn appends the turn's record and counts it as ok or failed |
| Storage.ResolvePrefixKeepsRecords | app.js:671-685 | the loop writes only lat, lon, mode and query: every other field of every record is kept |
| Storage.RunPaced | app.js:687-688 | over a batch, the trace gains at most two waits per record, and the clock advances by 675 ms per wait |
| Storage.BatchWaitsPerMiss | app.js:666-691 | the same for `mapear`'s loop |
| Storage.StoreBothMeaning | app.js:1066-1069 | after the two writes, both keys hold the payload, every other key keeps its entry, no other key appears, and nothing but the geocode store changes |
| Storage.RejectedCorrectionChangesNothing | app.js:1032-1038 | the correction is refused exactly when `Number()` of a field is not finite (a blank field reads as 0 and is accepted); a refused one changes neither the store nor the record |
| Storage.CorrectionCoversBothKeys | app.js:1040-1069 | an accepted correction stores the same entry under the key before and after the edit; the entry holds `Number()` of the typed coordinates, finite numbers, and mode `manual` unless the last geocode gave one; every other key is kept |
| Storage.CorrectedRecordsHit | app.js:1063-1069 | after a correction, both the edited record and the record as it was before are cache hits at `Number()` of the typed coordinates, with no request |
| Storage.BlankCorrectionSavesOrigin | app.js:1032-1056 | an editor whose latitude and longitude are both blank saves the record, and the payload under its old key, at (0, 0) |
| Storage.StrictCorrectionRefusesBlank | app.js:1035-1038 | corrected: the intended correction saves exactly when both fields are finite numbers; it refuses a blank field and otherwise agrees with `saveCorrection` |
| Storage.CoordinateOnlyCorrectionKeepsKey | app.js:930-935 | with the editor filled from the record as `fillEditorFromItem` fills it (CEP normalised, state upper-cased, city, district, street and number trimmed), saving keeps the key (app.js:1042-1063), so both writes land on one entry |
| Storage.OverlayStep | app.js:877-883 | visiting one more pair writes it when its value is present and both coordinates pass `isFinite(Number(x))` (blanks and `null` pass) and skips it otherwise; the count grows by one exactly when it is written |
| Storage.LastWriter | app.js:877-883 | the last visited pair with that key whose value passes the test, or none |
| Storage.OverlayMeaning | app.js:877-884 | after the merge, a key is present when it was before or some pair passing the test had it; its entry is that of the last such pair, and otherwise the old entry |
| Storage.OverlayAddsCheckedEntries | app.js:879-880 | every entry the merge adds or replaces passes the finiteness test (it may hold blank coordinates) |
| Storage.BlankJsonEntryMerged | app.js:879-882 | an incoming entry with blank (`null` or `""`) coordinates is merged as it is and counted |
| Storage.Strict | app.js:879 | corrected: the pairs with each value the intended test refuses dropped; the as-written and intended tests differ exactly on values with a blank coordinate |
| Storage.StrictOverlayAddsCoordinates | app.js:879-880 | corrected: through the intended test, every entry the merge adds or replaces has finite numeric coordinates |
| Storage.StrictRefusesBlankEntry | app.js:879-882 | corrected: through the intended test an entry with a blank coordinate is neither merged nor counted |
| Storage.OverlayIdempotent | app.js:877-884 | merging the same pairs twice is merging them once |
| Storage.OverlayAppend | app.js:877-884 | merging `a` then `b` is merging `a + b` |
| Storage.ImportedKeyHits | app.js:877-884 | after a merge, a record whose key some pair passing the test wrote is a cache hit at that pair's coordinates, as stored, with no request |
| Storage.RowPair | app.js:848-851 | the pair written for an imported row is under its key, holds `Number()` of the row's coordinates (0 for a blank cell), with mode `import` when blank; it counts exactly when both pass `isFinite`, and then holds finite numbers |
| Storage.BlankRowImportedAtOrigin | app.js:848-852 | a row with blank coordinates (a failed record, exported with empty cells) is written back at (0, 0) and counted, and the record then resolves from the cache to (0, 0) without a request (app.js:670-674) |
| Storage.StrictRowPair | app.js:848-849 | corrected: only a row whose coordinates are finite numbers gives a valid pair, and it is the pair the code writes |
| Storage.StrictSkipsBlankRow | app.js:848-852 | corrected: through the intended write-back a blank row is neither stored nor counted |
| Storage.RowPairs | app.js:847-853 | one pair per imported row, in order |
| Storage.ResetForgets | app.js:646-648 | after the reset no record is a cache hit, and a postal lookup makes its request again |
| Storage.Env.Sleep | app.js:687-688 | a wait appends a delay to the trace and advances the clock by its length |
| Storage.Env.ViaCepLookup | app.js:266-281 | the method's result and new state are those of the lookup function |
| Storage.Env.GeocodeBest | app.js:289-329 | the method's result and new state are those of `geocodeBest` with its postal lookup |
| Storage.Env.Settle | app.js:676-689 | the end of a missed turn: write-back or failure mark, then both waits |
| Storage.Env.ResolveOne | app.js:667-690 | one turn of the loop on the current cache |
| Storage.Env.ResolveLoop | app.js:666-691 | the loop leaves the state, the batch and the two counters as `Run` over the whole batch says |
| Storage.Env.ResolveBatch | app.js:657-691 | `mapear`'s resolve loop over the batch, starting from the stored cache |
| Storage.Env.Merge | app.js:875-884 | the stored cache becomes the old cache merged with the pairs, and the count is the number of pairs whose value passes `isFinite(Number(x))` |
| Storage.Env.ImportCacheJson | app.js:863-889 | a file that is not a JSON object changes nothing; otherwise the merge above is stored and its count returned |
| Storage.Env.ImportWriteBack | app.js:845-854 | every imported row whose coordinates pass `isFinite(Number(x))` (blank cells included) is written under its key, and their number is returned |
| Storage.Env.ImportEnrichedCSV | app.js:792-854 | the records loaded are those mapped from the parsed text; without a header and a data row nothing is loaded or written; otherwise the write-back above |
| Storage.Env.SaveCorrection | app.js:1025-1069 | with no record being edited nothing changes; otherwise the store and that one record change as the correction function says |
| Storage.Env.StoreUnder | app.js:1066-1069 | the payload is written under the new key, then the old |
| Storage.Env.ResetCache | app.js:646-648 | both stores are removed; nothing else changes |
| Jitter.SlotInRing | app.js:524-530 | member `i` is at ring `i / 10`, index `i % 10`, and `idx < count <= 10`; a short ring is the last; the radius is between 22 and 110 m |
| Jitter.RadiusMonotone | app.js:529-530 | the radius never decreases along the group |
| Jitter.SameRingDistinctAngles | app.js:526-531 | two members of one ring share its count but have different indices and angles |
| Jitter.DistinctSlotsUpToSixty | app.js:525-531 | among the first 60 members, no two share both radius and angle |
| Jitter.CappedRingsCoincide | app.js:529-531 | in a group of more than 60, members 50 and 60 both sit at the 110 m cap at angle 0, on the same spot |
| Jitter.Members | app.js:509-516 | the members of a group are positions of records whose coordinates pass `isFinite(Number(x))` and that have that grouping key |
| Jitter.MembersIncrease | app.js:510-515 | the members are listed in batch order |
| Jitter.MemberAt | app.js:515 | every record whose coordinates pass the test is a member of its own group, at the position given by the members before it |
| Jitter.GroupByKey | app.js:509-516 | the groups are exactly the keys with members (records passing `isFinite(Number(x))`, blanks read as 0); each lists its members in batch order, each key once |
| Jitter.SkipsRecordsWithoutCoordinates | app.js:511-512 | a record whose coordinates fail `isFinite(Number(x))` (NaN or an infinity; not a blank) is left as it is |
| Jitter.SingletonStaysPut | app.js:518-521 | a record alone in its group is displayed at `Number()` of its own coordinates |
| Jitter.GroupMemberSpread | app.js:523-536 | member `j` of a larger group is displaced from the first member's position by its ring slot, its radius is recorded, and nothing else changes |
| Jitter.NoSharedSlotUpToSixty | app.js:525-531 | in a group of at most 60, no two members share a slot |
| Jitter.BlankRecordGroupedAtOrigin | app.js:511-536 | a record with blank coordinates falls in the group of (0, 0): alone there it is drawn at (0, 0), and with others it is spread on a ring |
| Jitter.LayOutGroup | app.js:517-537 | laying out one more group places its members and leaves the others as they were |
| Jitter.SpreadGroup | app.js:523-536 | the ring loop places every member of the group |
| Jitter.ApplyVisualJitter | app.js:508-538 | every record of the batch ends up as `Placed` says: skipped when its coordinates fail the test, kept in place when alone in its group, or spread on its group's rings |
| Csv.DoubleQuotes | app.js:625 | doubling the quotes never shortens the text and changes nothing without quotes |
| Csv.ToCsvValue | app.js:625 | a value is written between double quotes |
| Csv.EndRow | app.js:768-774 | the end of a line empties the row and cell and appends the row unless all its cells are blank |
| Csv.Run | app.js:739-782 | the scan never appends a blank row |
| Csv.Parse | app.js:733-789 | no parsed row is blank |
| Csv.ParseCSV | app.js:733-789 | the loop's rows are those of the scan function, and none is blank |
| Csv.Kept | app.js:771-772 | the rows kept, trimmed, are never more than those given, and none is blank |
| Csv.RunDoubled | app.js:744-747 | inside quotes, `""` adds one quote to the cell |
| Csv.RunClose | app.js:749-751 | inside quotes, a lone `"` closes the quotes |
| Csv.RunOpen | app.js:757-759 | outside quotes, `"` opens quotes |
| Csv.RunComma | app.js:762-765 | outside quotes, `,` ends the cell |
| Csv.RunNewline | app.js:768-774 | outside quotes, a line break ends the row |
| Csv.QuotedTail | app.js:743-755 | a quoted section with doubled quotes, followed by its closing quote, reads back as the text itself |
| Csv.FieldScan | app.js:625 | a value written by `toCsvValue` reads back as its trimmed text |
| Csv.RowScan | app.js:631 | an encoded line reads back as the trimmed cells of the row |
| Csv.TableScan | app.js:733-789 | encoded lines joined by line breaks read back as the rows before them plus the trimmed non-blank rows |
| Csv.RoundTrip | app.js:733-789 | parsing the encoded table gives back every row that is not all blank, trimmed, in order (quotes, commas and line breaks inside cells included) |
| Csv.IgnoresCR | app.js:777-779 | outside quotes, carriage returns do not change the scan |
| Csv.ParseIgnoresCR | app.js:777-779 | text without quotes parses the same with or without its carriage returns |
| Csv.PlainFieldScan | app.js:781 | a cell without quote, comma or line break reads back character for character |
| Csv.PlainRowScan | app.js:629 | a line of such cells joined by commas reads back as those cells |
| Csv.ExportTable | app.js:630-632 | one line of fields per record, in batch order |
| Csv.ExportText | app.js:626-633 | an empty batch exports nothing; otherwise there is a text |
| Csv.ExportCSV | app.js:626-633 | the loop builds the export text: the header, then one encoded line per record |
| Csv.HeaderScan | app.js:628-629 | the header line reads back as the column names |
| Csv.ExportParses | app.js:626-633 | an exported file parses as the header followed by the trimmed non-blank lines |
| Csv.FindColumn | app.js:807-810 | the index found matches the name up to case, and no earlier header matches; -1 when none matches |
| Csv.FindExportedColumn | app.js:807-810 | in an exported header, each column is found where the export put it |
| Csv.ExportedLayout | app.js:804-824 | an exported header gives the layout of columns 0 to 12 |
| Csv.ImportRows | app.js:799-826 | nothing is loaded from fewer than two rows; otherwise one record per data row |
| Csv.ImportRowsAt | app.js:826-842 | record `k` is data row `k + 1` mapped under the header's layout |
| Csv.ImportTrimmed | app.js:826-842 | under the export layout, a row of trimmed cells gives each field from its own column |
| Csv.ReimportRow | app.js:826-842 | importing an exported line gives the record with its text fields trimmed, its CEP normalised, the head count and coordinates read back from their text, and no display position |
| Csv.KeptWhole | app.js:771-772 | a table without blank rows is kept whole |
| Csv.ImportExportedRows | app.js:826-842 | every line of an export is re-imported as that line's record |
| Csv.ExportImportRoundTrip | app.js:626-842 | exporting a batch without blank lines and importing the file gives one record per record, in order, each as `Reimport` says |

## Left out

- The DOM and the user interface are not modelled. This covers element references, lists, popups' HTML, status and progress lines, the editor form and the event wiring. They display state and decide nothing.
- Leaflet is not modelled: markers, clusters, `updateMarkerFromItem` and fitting the view are calls into a foreign library. The display position `vlat`/`vlon` is modelled, but not the marker.
- The network is not modelled: `fetch`, `fetchJson`, Nominatim URL building and JSON reply shapes.
  - `geocodeStructured` is an oracle from query parameters to an optional hit.
  - ViaCEP is an oracle giving a failure, an `erro` reply or the address data.
  - The requests made are recorded in a trace.
- Time is not modelled. `sleep` appends a delay to the trace and advances a counter, and `Date.now()` is that counter. The `await` interleavings, and a second click during a running batch, are not modelled.
- `localStorage`, `JSON.parse` and `JSON.stringify` are not modelled. A store is an optional map, and a missing or unparsable store reads as empty. A cache file that is not a JSON object is an absent input.
- `Storage.Env.ImportCacheJson`: the incoming object is a sequence of key/value pairs in `Object.keys` order. The JavaScript ordering of integer-like keys is not modelled. A later duplicate wins, as in an object.
- Reading spreadsheets (XLSX), column inference and the filter used by `getFilteredData` are not modelled. `mapear` is modelled on the array of records it is given. The early return on an empty batch is just a loop that does nothing.
- Floating point is not modelled. The model omits distances, `metersToDegrees` and the sines and cosines of the ring offsets, which form one abstract displacement parameter. The `toFixed(5)` grouping key is an abstract key parameter.
- `Records.TextCoord`: a coordinate slot keeps the `Number()` reading of a cell, not the cell's text. The code keeps the trimmed text (app.js:837-838) and applies `Number()` only where it tests or plots. A record imported and exported again therefore prints `show(parse(s))` where the code prints `s` itself (a cell `-23,5` comes back as NaN's printing, `-23.50` as `-23.5`'s). The same holds for a string or boolean coordinate merged from a JSON cache and copied into a record on a hit.
- Number text is not modelled: `String()` of a number, `Number()` of a text and the digit parse of `toNumberBR` are parameters. Blank text is 0, as the code writes it.
- On import, the head count goes through that parameter whenever its column exists. A missing column gives 0, as `toNumberBR(0)` does.
- `sanitizeAddress` is a parameter. Its case-insensitive, Unicode-aware regular expressions are not modelled.
- `Text.ToUpper` and `Text.ToLower` (used by `Csv.FindColumn`) fold ASCII and Latin-1 letters only. Full Unicode case mapping is not modelled.
- Object aliasing is not modelled. Records are values in an array, and a field write replaces the array element. The items of `applyVisualJitter`'s groups are positions in the batch rather than shared objects.
- `CacheKey.MakeCacheKey`: the 420 limit is counted in characters (code points). `.slice(0,420)` counts UTF-16 code units, so for text outside the Basic Multilingual Plane the real key is cut shorter and can split a surrogate pair.
- `CacheKey.KeyWhole`: "at most 420 characters" is counted in code points, for the same reason; with characters outside the Basic Multilingual Plane the code may already truncate a shorter join.
- `Csv.ExportImportRoundTrip` requires that no exported line be all blank. The parser drops such a line, which renumbers the records after it. `Csv.RoundTrip` covers that case for the codec alone.

## Findings

The operations above are modelled as the code is written. Each row below pairs the as-written consequence with a corrected definition, defined next to it, in which a blank coordinate is refused.

| source | as written | input that shows it | evidently intended | confidence | as-written member | corrected member |
|---|---|---|---|---|---|---|
| app.js:848-851 | `importEnrichedCSV` writes back every row whose `Number(lat)` and `Number(lon)` are finite. `Number("")` is 0 | a record that failed (`falha`) keeps blank coordinates; exported and imported again, it is stored at (0, 0) and counted, and the next `mapear` takes (0, 0) from the cache without a request | a row without a position is not written back | medium, not executed | Storage.BlankRowImportedAtOrigin | Storage.StrictRowPair |
| app.js:879-880 | `importCacheJson` merges every value whose `Number(v.lat)` and `Number(v.lon)` are finite. `Number(null)` is 0 | `{"k": {"lat": null, "lon": null}}` is merged and counted, and a record with key `k` then resolves to the blanks | only entries holding finite numbers are merged | medium, not executed | Storage.BlankJsonEntryMerged | Storage.StrictOverlayAddsCoordinates |
| app.js:1032-1038 | `saveCorrection` refuses only fields whose `Number()` is not finite | an editor with both coordinate fields blank saves the record and both cache entries at (0, 0) | a blank field is refused with the "invalid latitude/longitude" message | medium, not executed | Storage.BlankCorrectionSavesOrigin | Storage.StrictCorrectionRefusesBlank |
