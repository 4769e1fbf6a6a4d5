# Education locations pipeline — a Dafny model

This project models the data pipeline that turns the Dutch education registers
(DUO) into QGIS-ready location files. It covers five stages, one Python script
each, in order:

1. `01_process_organizations.py` builds a `full_address` for every organisation
   row. It parses the operating dates strictly as `%d-%m-%Y` and keeps twelve
   columns.
2. `02_process_education.py` parses the three dates of the programme register.
   It adds `education_sector` from the four sector codes.
3. `03_merge_datasets.py` splits the organisations into four sector files by
   `CODE_SOORT`. Each file is cleaned (dates coerced, address, postcode and
   house number keys) and tagged with the sector, the location and function
   types and a temporal status.
4. The three geocoding scripts rebuild each address as
   `address, postcode, city, province, Netherlands`, after removing `.0` float
   artefacts. They ask a geocoding provider for each address with a retry loop.
   Timeouts and quota errors are retried, and the loop gives up after three
   attempts. Each script writes one row per address. `04_geocode_locations.py`
   is a class. `04_geocode_vocational.py` and `04_geocode_primary.py` are two
   copies of the same function script.
5. `05_refine_higher.py` and `05_refine_locations.py` join each sector file to
   its coordinates. The first joins on postcode and house number, the second on
   the full address. Each derives the status, decades, operating time, facility
   type and operation period, and reduces the result to the output columns.
   The higher-education script also keeps one record per coordinate pair.

The model follows each script's own form.
- Scripts that rewrite a DataFrame column by column become classes:
  `OrganisationFrame`, `EducationFrame`, `SectorFrame`, `AddressFrame` and
  `FacilityFrame`. Each holds its rows in a `seq` field, and its methods
  reassign those rows. Each method is proved against a function on the rows
  it started from.
- The class `LocationRefiner` of `05_refine_locations.py` holds only the
  lowered sector name. Its rows live in the `FacilityFrame` that
  `LoadAndMergeData` returns and `AddTemporalAnalysis` updates.
- The retry loops and the row loops are methods with `while` loops, proved
  against recursive specification functions (`Geocoding.Retry`,
  `Geocoding.GeocodeAll`).
- The row-wise computations are pure functions: parsing, address building,
  status, decades, the joins and the group selection.

Everything outside the program becomes a parameter.
- The geocoding provider is a function from an address and a call number to
  an outcome: found, no match, timed out, quota exceeded or another error.
- `pd.Timestamp.now()` is a date `now`.
- The format-guessing `pd.to_datetime` of the merge script is a function
  `infer`.
- Files are sequences of rows: a file that is missing or unreadable is `None`.

The proofs cover these properties.
- The strict date parser accepts exactly the texts that spell a real day, and
  it round-trips with its formatter.
- When street and suffix contain no dot, the `.0` substitution of the
  geocoders undoes the float house number that the first script can produce.
- When no field contains a comma, the rebuilt address splits back into its
  five fields.
- The retry loop returns a location exactly when some provider call found one.
  It never makes more than `max_retries` calls, and its waits follow the
  outcomes.
- The row loops write exactly one row per address.
- The left joins keep every left row and copy each matching right row's
  coordinates.
- `drop_duplicates` is idempotent.
- The group selection keeps one record per coordinate pair.
- The output statuses are never Unknown once the dates have been converted.
- An empty frame fails where pandas' probe row makes the row-wise `apply`
  fail: the period column of both refinement scripts, and the status column of
  a sector file without `DT_UIT_BEDRIJF`.

One property of the refinement step as written: the base file's `full_address`
is the plain street address. The geocoded file's `full_address` is the rebuilt
address ending in ", Netherlands". So the address merge of
`05_refine_locations.py` finds no coordinates for any base row whose address
lacks that ending (`RefineLocations.RebuiltAddressesNeverMatch`). The
higher-education script avoids this by joining on postcode and house number
extracted from the rebuilt address instead.

The file locations do not line up either. `04_geocode_locations.py` writes
`data/processed/final/geocoded_{sector}_locations.csv`
(`scripts/04_geocode_locations.py:29`), but `05_refine_locations.py` looks
for `data/geocoded/geocoded_{sector}_locations.csv`
(`scripts/05_refine_locations.py:28-32`). The model takes the geocoded file
as an optional parameter, so the case where that file is not found is the
`None` case.

## Model

| member | source | states |
|---|---|---|
| Text.Lower | scripts/04_geocode_locations.py:22 | `str.lower` lowers each character in place: same length, character `i` is the lowered character `i`, no upper-case letter left |
| Text.LowerIdempotent | scripts/05_refine_locations.py:19 | lowering a lowered sector name changes nothing |
| Text.RemoveSpaces | scripts/03_merge_datasets.py:38-40 | `replace(' ', '')` never lengthens the text, and its characters are exactly the input's non-space characters |
| Text.RemoveSpacesAppend | scripts/03_merge_datasets.py:38-40 | the removal works piece by piece: it distributes over concatenation |
| Text.RemoveSpacesChar | scripts/03_merge_datasets.py:38-40 | a single space is dropped and any other single character kept |
| Text.RemoveInnerSpace | scripts/05_refine_higher.py:29 | one space between two space-free texts is all that the removal drops |
| Text.RemoveSpacesIdentity | scripts/03_merge_datasets.py:38-40 | text without spaces is left as it is |
| Text.RemoveSpacesNoUpper | scripts/03_merge_datasets.py:38-40 | removing spaces after lowering keeps the text free of capitals |
| Text.RemoveSpacesKeepsEnds | scripts/05_refine_higher.py:29 | a stripped postcode keeps its first and last character when spaces are removed |
| Text.Strip | scripts/05_refine_higher.py:29 | `strip()` leaves no whitespace at either end |
| Text.StripTrims | scripts/05_refine_higher.py:29 | `strip()` returns a slice of its input, and everything it cuts off before and after that slice is whitespace |
| Text.StripIdentity | scripts/05_refine_higher.py:29 | text without whitespace at its ends is its own strip |
| Text.NatToString | scripts/01_process_organizations.py:24 | `str` of a number is a non-empty string of digits |
| Text.NatToStringRoundTrip | scripts/01_process_organizations.py:24 | reading the decimal text of `n` gives back `n` |
| Text.FirstDigitRun | scripts/03_merge_datasets.py:42-44 | `extract(r'(\d+)')` is null exactly when there is no digit, else the leftmost maximal run of digits |
| Text.StripDotZeroLeavesNoMatch | scripts/04_geocode_locations.py:47-52 | after `re.sub(r'\.0\b', '', s)` no `.0` followed by a non-word character is left |
| Text.StripDotZeroIdentity | scripts/04_geocode_locations.py:47-52 | the substitution leaves text without a match unchanged |
| Text.StripDotZeroIdempotent | scripts/04_geocode_locations.py:47-52 | applying the substitution twice is the same as once |
| Text.StripDotZeroSkipsDotless | scripts/04_geocode_locations.py:47-52 | text without a dot passes through the substitution untouched |
| Dates.DayNumberOrder | scripts/05_refine_higher.py:31-40 | the day count used for date differences orders dates as the calendar does and is injective |
| Dates.ParseDMYCharacterised | scripts/01_process_organizations.py:27-30 | `to_datetime(format='%d-%m-%Y')` yields `d` exactly when the text spells `d` in that format and `d` is a real day inside the Timestamp range |
| Dates.ParseSpelled | scripts/02_process_education.py:19-22 | any accepted spelling of a day, with one or two digits for day and month, parses to that day |
| Dates.FormatDMY | scripts/01_process_organizations.py:27-30 | the `DD-MM-YYYY` rendering of a date is ten characters |
| Dates.DMYRoundTrip | scripts/01_process_organizations.py:27-30 | parsing the `DD-MM-YYYY` rendering of a date gives the date back |
| Dates.FormatISO | scripts/05_refine_locations.py:151-155 | `strftime('%Y-%m-%d')` is ten characters: the year's four digits, a dash, the month's two digits, a dash, the day's two digits |
| Dates.FormatISOInjective | scripts/05_refine_locations.py:151-155 | two days with the same ISO text are the same day |
| Dates.Coerce | scripts/05_refine_higher.py:121-124 | `pd.to_datetime` of a cell gives a date exactly for readable text, and that date |
| Dates.Convert | scripts/05_refine_locations.py:140-141 | `pd.to_datetime` without `errors=` fails exactly on unreadable text, otherwise agrees with the coercing read |
| Dates.CoerceDMY | scripts/01_process_organizations.py:27-30 | `errors='coerce'`: a converted cell holds `d` exactly when its text spells `d`; a null cell stays null; a converted cell is not touched again |
| Dates.CoerceDMYIdempotent | scripts/02_process_education.py:19-22 | converting a date column twice is the same as converting it once |
| Dates.CoerceDMYRoundTrip | scripts/02_process_education.py:19-22 | a date written as `DD-MM-YYYY` comes back as that date |
| Temporal.DetermineLocationStatus | scripts/05_refine_higher.py:63-77 | Unknown exactly when a date cannot be read; Active exactly when the end date is null or after now; Closed exactly when the end date is now or earlier |
| Temporal.ConvertedStatusKnown | scripts/05_refine_locations.py:90-104 | once the dates are converted, the status is never Unknown, and it is Active exactly when the location still operates |
| Temporal.DecadeOf | scripts/05_refine_higher.py:42-48 | `(year // 10) * 10` is a multiple of ten at most `year` and within ten of it |
| Temporal.DecadeLabel | scripts/05_refine_higher.py:42-48 | null exactly for a null date, otherwise a label ending in `s` |
| Temporal.DecadeLabelMeaning | scripts/05_refine_locations.py:76-82 | the label's digits are the first year of the decade that holds the date |
| Temporal.DecadeLabelSameDecade | scripts/05_refine_locations.py:76-82 | two dates get the same label exactly when their years share a decade |
| Temporal.OperationDays | scripts/05_refine_higher.py:31-40 | the day difference is null exactly when the start date is null |
| Temporal.OperationDaysMonotone | scripts/05_refine_locations.py:65-74 | a later end date gives a longer operating time |
| Temporal.OperationDaysSign | scripts/05_refine_locations.py:65-74 | the operating time is negative exactly when the end (or now) is before the start, and zero exactly when they are the same day |
| Temporal.OperationDaysExample | scripts/05_refine_higher.py:31-40 | a location opened on 1 January 2000 and still open on 1 January 2024 has operated 8766 days |
| Temporal.OperationPeriod | scripts/05_refine_higher.py:143-147 | fails exactly when the start date is null; otherwise the ISO start, ` to `, and the ISO end or `Present` exactly when the end is null |
| ProcessOrganizations.HouseNumberText | scripts/01_process_organizations.py:24 | a house number read as a float prints with `.0`, a text one as itself, a missing one as empty |
| ProcessOrganizations.FullAddress | scripts/01_process_organizations.py:22-25 | the address is street, space, house-number text, space, suffix, with nulls as empty text |
| ProcessOrganizations.DotZeroBeforeSpace | scripts/04_geocode_locations.py:47-52 | the only thing removed from a dotless address is the `.0` before the space |
| ProcessOrganizations.FloatHouseNumberRepaired | scripts/04_geocode_locations.py:47-52 | when street and suffix contain no dot, stripping `.0` from an address built with a float house number gives the address built with the integer number |
| ProcessOrganizations.CleanRow | scripts/01_process_organizations.py:5-52 | an output row holds the built address, the two operating dates parsed strictly, and the other nine selected columns copied unchanged |
| ProcessOrganizations.CleanRowStartDate | scripts/01_process_organizations.py:27-30 | the opening date is `d` exactly when its text spells `d` and `d` is a valid day |
| ProcessOrganizations.OrganisationFrame.AddFullAddress | scripts/01_process_organizations.py:22-25 | every row gets its built address, and nothing else changes |
| ProcessOrganizations.OrganisationFrame.ConvertDates | scripts/01_process_organizations.py:27-30 | the loop over the date columns converts every date cell of every row, and nothing else changes |
| ProcessOrganizations.OrganisationFrame.Select | scripts/01_process_organizations.py:32-41 | the selection is one output row per row, in order |
| ProcessOrganizations.ProcessOrganizations | scripts/01_process_organizations.py:5-52 | the output has one cleaned row per input row, in order |
| ProcessEducation.EducationSector | scripts/02_process_education.py:24-32 | the sector is defined exactly for the four codes PO, VO, MBO and HO, and is then one of the four sector names |
| ProcessEducation.EducationSectorInjective | scripts/02_process_education.py:25-30 | no two codes share a sector name |
| ProcessEducation.EducationFrame.ConvertDates | scripts/02_process_education.py:19-22 | every date cell of every row is converted, and nothing else changes |
| ProcessEducation.EducationFrame.AddEducationSector | scripts/02_process_education.py:32 | every row gets the sector of its code, and nothing else changes |
| ProcessEducation.ProcessEducation | scripts/02_process_education.py:5-43 | same rows in the same order, dates converted, sector added, other columns untouched |
| MergeDatasets.CoerceCell | scripts/03_merge_datasets.py:26-30 | `errors='coerce'` turns text into a date exactly when it can be read, else NaT; cells already converted or null stay as they are |
| MergeDatasets.CoercedIn | scripts/03_merge_datasets.py:26-30 | exactly the named date columns present in the row are coerced; no column is added or lost |
| MergeDatasets.AddressText | scripts/03_merge_datasets.py:32-36 | the fallback address joins the three parts with two spaces, nulls printed as `nan` |
| MergeDatasets.AddressTextAgrees | scripts/03_merge_datasets.py:32-36 | with all parts present it builds the same address as the first script |
| MergeDatasets.AddressTextMissingStreet | scripts/03_merge_datasets.py:32-36 | with a missing street it is `nan`, a space, the number, a space and the suffix, which differs from the first script's address: `astype(str)` runs before `fillna` |
| MergeDatasets.AddressTextAllMissing | scripts/03_merge_datasets.py:32-36 | with all three parts missing the address is `nan nan nan` |
| MergeDatasets.CleanPostcode | scripts/03_merge_datasets.py:38-40 | the cleaned postcode is the postcode's text lower-cased with every space removed, so it has no capital and no space; a null postcode becomes `nan` |
| MergeDatasets.CleanPostcodeExample | scripts/03_merge_datasets.py:38-40 | `1234 AB` cleans to `1234ab` |
| MergeDatasets.CleanPostcodeIdempotent | scripts/03_merge_datasets.py:38-40 | cleaning a cleaned postcode changes nothing |
| MergeDatasets.CleanPostcodeIgnoresCaseAndSpaces | scripts/03_merge_datasets.py:38-40 | postcodes that differ only in case and spaces clean to the same key |
| MergeDatasets.HouseNumberCell | scripts/03_merge_datasets.py:42-44 | the house number is null exactly when the printed cell has no digit, otherwise its leftmost run of digits |
| MergeDatasets.CleanedColumns | scripts/03_merge_datasets.py:24-46 | cleaning adds `full_address`, and `postcode_cleaned` / `house_number` exactly when their source column exists |
| MergeDatasets.Cleaned | scripts/03_merge_datasets.py:24-46 | a cleaned row has exactly the cleaned columns |
| MergeDatasets.CleanedFullAddress | scripts/03_merge_datasets.py:32-36 | an existing `full_address` is kept, otherwise it is built from street, number and suffix |
| MergeDatasets.CleanedKeys | scripts/03_merge_datasets.py:38-44 | the postcode and house-number keys are derived from their source columns |
| MergeDatasets.CleanedDates | scripts/03_merge_datasets.py:26-30 | every present date column holds its coerced value, never text |
| MergeDatasets.CleanedKeeps | scripts/03_merge_datasets.py:24-46 | cleaning changes no column other than `full_address` and the two keys beyond the date coercion |
| MergeDatasets.TemporalStatus | scripts/03_merge_datasets.py:107-112 | Active exactly when the end date is NaT or after now, Historical otherwise; no status for an unconverted cell |
| MergeDatasets.Tagged | scripts/03_merge_datasets.py:100-112 | the tag columns hold the sector name, the copied `CODE_SOORT` and `CODE_FUNCTIE`, and the temporal status |
| MergeDatasets.SectorFrame.SetColumn | scripts/03_merge_datasets.py:101 | assigning a column sets that cell in every row and adds the column, and nothing else changes |
| MergeDatasets.SectorFrame.ConvertDates | scripts/03_merge_datasets.py:26-30 | the loop leaves every row as its date-coerced version |
| MergeDatasets.SectorFrame.CleanAndStandardize | scripts/03_merge_datasets.py:24-46 | succeeds exactly when the address columns it reads are there, and then every row is the cleaned row |
| MergeDatasets.SectorFrame.Tag | scripts/03_merge_datasets.py:100-112 | succeeds exactly when `CODE_SOORT`, `CODE_FUNCTIE` and `DT_UIT_BEDRIJF` exist and no end date is left as text; an empty frame without `DT_UIT_BEDRIJF` fails too, because the status lambda raises on pandas' probe row; then every row is tagged |
| MergeDatasets.SectorName | scripts/03_merge_datasets.py:87 | the four sector names |
| MergeDatasets.SectorCodesDisjoint | scripts/03_merge_datasets.py:78-84 | no `CODE_SOORT` belongs to two sectors |
| MergeDatasets.SectorRows | scripts/03_merge_datasets.py:93-94 | the filter keeps exactly the rows whose code is one of the sector's codes |
| MergeDatasets.SectorRowsAppend | scripts/03_merge_datasets.py:93-94 | filtering distributes over concatenation, so the rows keep their order |
| MergeDatasets.AtMostOneSector | scripts/03_merge_datasets.py:89-98 | no organisation row is written to two sector files |
| MergeDatasets.SectorTable | scripts/03_merge_datasets.py:89-116 | a written sector file belongs to that sector, has no more rows than the input, has the cleaned and tagged columns, and is written only when `CODE_SOORT`, `CODE_FUNCTIE` and `DT_UIT_BEDRIJF` exist |
| MergeDatasets.SectorTableNeedsEndDate | scripts/03_merge_datasets.py:89-112 | without `DT_UIT_BEDRIJF` no sector file is written, even for a sector with no organisation |
| MergeDatasets.MergeDatasets | scripts/03_merge_datasets.py:89-126 | the sector loop writes the sectors' files in order and stops at the first sector that fails |
| MergeDatasets.ProcessSector | scripts/03_merge_datasets.py:92-112 | the steps for one sector produce that sector's file |
| Geocoding.Retry | scripts/04_geocode_locations.py:66-87 | the retry specification makes at most `max_retries` calls, and at least one when any is allowed |
| Geocoding.RetryTrace | scripts/04_geocode_locations.py:66-87 | every call but the last timed out or hit the quota; the last call decides the ending; running out means every attempt was used |
| Geocoding.RetryWaitLog | scripts/04_geocode_locations.py:74-84 | the k-th sleep is 1 second after a timeout and 60 seconds after a quota error |
| Geocoding.RetryLocatedIffFound | scripts/04_geocode_locations.py:66-73 | the run returns a location exactly when one of its calls found one |
| Geocoding.RetryAnswerReturnsAtOnce | scripts/04_geocode_locations.py:70-73 | a found or not-found answer on the first call ends the run after one call without sleeping |
| Geocoding.RetryTimeoutWaits | scripts/04_geocode_locations.py:74-80 | no sleep follows the last attempt's timeout, so there are fewer timeout sleeps than attempts |
| Geocoding.RetryAllQuota | scripts/04_geocode_locations.py:81-84 | when every call hits the quota, every attempt is used, each followed by a 60-second sleep, and nothing is returned |
| Geocoding.RetryThreeTimeouts | scripts/04_geocode_locations.py:74-80 | three timeouts give up after three calls and two one-second sleeps |
| Geocoding.RetryLoop | scripts/04_geocode_locations.py:68-87 | the `for attempt` loop computes exactly the retry specification's run |
| Geocoding.LocationOf | scripts/04_geocode_locations.py:101 | the wrapper returns a location exactly when the run ended with one |
| Geocoding.ResultRow | scripts/04_geocode_locations.py:102-106 | the row keeps the address and has coordinates exactly when a location was found |
| Geocoding.GeocodePrefix | scripts/04_geocode_locations.py:98-119 | after n addresses there are n rows and at most three calls per address |
| Geocoding.GeocodeAll | scripts/04_geocode_locations.py:89-123 | one row per address, at most three calls per address |
| Geocoding.GeocodeAllRow | scripts/04_geocode_locations.py:98-119 | row `i` has address `i`, both coordinates or neither, and coordinates exactly when a call for that address found a location |
| Geocoding.ComposeAddress | scripts/04_geocode_locations.py:54-60 | the rebuilt address has the five parts' lengths plus the separators and ends in `, Netherlands` |
| Geocoding.SplitFields | scripts/04_geocode_locations.py:54-60 | splitting at `, ` always yields at least one field |
| Geocoding.SplitJoinFields | scripts/04_geocode_locations.py:54-60 | splitting the joined fields at `, ` gives the fields back when none contains a comma |
| Geocoding.ComposeAddressSplits | scripts/04_geocode_locations.py:47-60 | when no field contains a comma, the rebuilt address splits back into the cleaned address, postcode, city, province and country |
| Geocoding.Prepared | scripts/04_geocode_locations.py:41-64 | after preparation every row has an address, and every other column is unchanged |
| Geocoding.PreparedAddresses | scripts/04_geocode_locations.py:54-60 | the row loop reads exactly the rebuilt addresses |
| Geocoding.AddressFrame.PrepareAddresses | scripts/04_geocode_locations.py:41-64 | refuses an empty table and leaves it as it is; otherwise rewrites every address in place |
| GeocodeLocations.NewLocationGeocoder | scripts/04_geocode_locations.py:20-29 | construction fails exactly when the key is missing or empty; the sector is lowered and names both file paths |
| GeocodeLocations.GeocodeWithRetries | scripts/04_geocode_locations.py:66-87 | returns the run's location and call count: a location exactly when some call found one, at most `max_retries` calls |
| GeocodeLocations.GeocodeDataset | scripts/04_geocode_locations.py:89-123 | the row loop produces exactly the rows and call count of the specification |
| GeocodeLocations.Process | scripts/04_geocode_locations.py:125-151 | succeeds exactly when the file loaded with at least one row, and then writes the geocoded rows of the rebuilt addresses |
| GeocodeScripts.GeocodeWithRetries | scripts/04_geocode_vocational.py:67-84 | raises exactly when the provider raised another error; returns a location exactly when the run found one; at most `retries` calls |
| GeocodeScripts.GeocodeData | scripts/04_geocode_vocational.py:87-122 | the row loop, which catches the escaping errors, produces exactly the specification's rows |
| GeocodeScripts.AnalyzeData | scripts/04_geocode_vocational.py:41-64 | refuses an empty table; otherwise rebuilds every address in place |
| GeocodeScripts.EstimateGeocodingTime | scripts/04_geocode_vocational.py:125-129 | hours, minutes and seconds add up to the total time, with minutes and seconds below 60 |
| GeocodeScripts.RunGeocoding | scripts/04_geocode_primary.py:124-145 | writes a file exactly when the data loaded with at least one row, holding the geocoded rows of the rebuilt addresses |
| Joins.Matches | scripts/05_refine_higher.py:110-115 | exactly the right rows carrying the key |
| Joins.MatchesCount | scripts/05_refine_higher.py:110-115 | each right row with the key is matched as often as it occurs on the right |
| Joins.MatchesAppend | scripts/05_refine_higher.py:110-115 | matches keep the right table's order: the matches of a concatenation are those of its first part, then those of its second |
| Joins.MatchesNone | scripts/05_refine_locations.py:120-124 | a key no right row carries has no match |
| Joins.JoinRow | scripts/05_refine_higher.py:110-115 | a left row yields one row per match, or itself with nulls when nothing matches |
| Joins.LeftJoin | scripts/05_refine_higher.py:110-115 | a left merge never has fewer rows than the left table |
| Joins.LeftJoinAppend | scripts/05_refine_higher.py:110-115 | merging a concatenation is concatenating the merges, so the left order is kept |
| Joins.LeftJoinBlock | scripts/05_refine_higher.py:110-115 | the rows of left row `i` sit together right after those of the rows before it |
| Joins.LeftJoinKeepsLeftRows | scripts/05_refine_higher.py:110-115 | every left row appears in the merge |
| Joins.LeftJoinRowsOf | scripts/05_refine_higher.py:110-115 | left row `i` fills one merged row per match, or one row when nothing matches, starting right after the rows of the rows before it |
| Joins.LeftJoinRowAt | scripts/05_refine_higher.py:110-115 | the `m`-th row of left row `i`'s block carries its `m`-th match |
| Joins.LeftJoinUnmatchedAt | scripts/05_refine_higher.py:110-115 | an unmatched left row appears once with null right columns |
| Joins.LeftJoinSameLength | scripts/05_refine_higher.py:110-115 | when no key matches twice on the right, the merge has as many rows as the left table |
| Joins.LeftJoinEmptyRight | scripts/05_refine_higher.py:110-115 | merging with an empty right table gives every left row once, with nulls |
| Joins.DropDuplicates | scripts/05_refine_higher.py:126-128 | keeps the same rows without repeats, each at its first occurrence, in order |
| Joins.DropDuplicatesIdentity | scripts/05_refine_higher.py:126-128 | a table without duplicates is unchanged |
| Joins.DropDuplicatesIdempotent | scripts/05_refine_higher.py:126-128 | dropping duplicates twice is the same as once |
| Joins.SortedKeys | scripts/05_refine_higher.py:130-133 | the group keys are the distinct coordinate pairs, in ascending order |
| Joins.SortedKeysDistinct | scripts/05_refine_higher.py:130-133 | no group key repeats |
| RefineHigher.ExtractHouseNumber | scripts/05_refine_higher.py:11-16 | empty for a null address or one without a whole-word number, otherwise the leftmost such number |
| RefineHigher.HouseNumberNeedsBoundary | scripts/05_refine_higher.py:15 | `12A` has no house number, because `\b` needs a non-word character after the digits |
| RefineHigher.ExtractPostcode | scripts/05_refine_higher.py:18-23 | empty for a null address or one without a whole-word `1234AB`, otherwise the leftmost one in lower case |
| RefineHigher.ExtractPostcodeExample | scripts/05_refine_higher.py:18-23 | `5, 1234AB` yields `1234ab` |
| RefineHigher.CleanPostcode | scripts/05_refine_higher.py:25-29 | empty for null, otherwise free of capitals and spaces with no whitespace at either end |
| RefineHigher.CleanPostcodeIdempotent | scripts/05_refine_higher.py:25-29 | cleaning a cleaned postcode changes nothing |
| RefineHigher.CleanCompactPostcode | scripts/05_refine_higher.py:25-29 | a compact `1234AB` cleans to its lower-case form |
| RefineHigher.CleanSpacedPostcode | scripts/05_refine_higher.py:25-29 | the same postcode written `1234 AB`, in any case, cleans to the same key |
| RefineHigher.ExtractCompactPostcode | scripts/05_refine_higher.py:18-23 | a compact postcode is extracted as the same key that `clean_postcode` gives, so the two sides can meet |
| RefineHigher.FacilityType | scripts/05_refine_higher.py:50-61 | a name other than `Other` exactly for the codes HBO, WO and LOC |
| RefineHigher.FacilityTypeInjective | scripts/05_refine_higher.py:55-59 | no two codes share a facility name |
| RefineHigher.MergedKeepsEveryRow | scripts/05_refine_higher.py:109-115 | each higher-education row heads its own block of merged rows |
| RefineHigher.MergedCoordinates | scripts/05_refine_higher.py:109-115 | the block of row `i` carries the coordinates of its matching geocoded rows in order |
| RefineHigher.MergedCoordinateAt | scripts/05_refine_higher.py:109-115 | the `m`-th merged row of row `i` carries the `m`-th match's coordinates |
| RefineHigher.MergedUnmatched | scripts/05_refine_higher.py:109-115 | a row without a match is kept once with null coordinates |
| RefineHigher.BlankKeysMatch | scripts/05_refine_higher.py:102-107 | a row with null postcode and address matches every geocoded row whose address has neither postcode nor number |
| RefineHigher.WithStatus | scripts/05_refine_higher.py:117-119 | every merged row gets its location status |
| RefineHigher.ConvertDates | scripts/05_refine_higher.py:121-124 | fails exactly when some date cannot be read; otherwise the rows are unchanged |
| RefineHigher.ConvertedStatusesKnown | scripts/05_refine_higher.py:117-124 | when the conversion succeeds, no status is Unknown |
| RefineHigher.Latest | scripts/05_refine_higher.py:90-91 | a record of the group whose start is the latest, NaT last |
| RefineHigher.FirstActive | scripts/05_refine_higher.py:86-88 | the index of the first Active record, or the group size when there is none |
| RefineHigher.MostRecentRecord | scripts/05_refine_higher.py:79-91 | a group member: the first Active record when there is one, else one with the latest start |
| RefineHigher.CoordinateKeys | scripts/05_refine_higher.py:130-133 | the non-null coordinate pairs of the rows |
| RefineHigher.CoordinateKeysNone | scripts/05_refine_higher.py:132 | rows without a complete coordinate pair contribute no group key |
| RefineHigher.GroupOfAppend | scripts/05_refine_higher.py:130-133 | `groupby` keeps row order inside a group: the group of a concatenation is the two groups in turn |
| RefineHigher.GroupFirstActive | scripts/05_refine_higher.py:86-88 | the group's first Active record is the first Active row with that pair in row order |
| RefineHigher.GroupRecord | scripts/05_refine_higher.py:130-133 | the chosen record is a row with that pair: the first Active one in row order when there is one, otherwise one with the latest start |
| RefineHigher.UniqueLocations | scripts/05_refine_higher.py:130-133 | one chosen record per distinct pair, in key order |
| RefineHigher.UniqueLocationsOnePerPair | scripts/05_refine_higher.py:130-133 | every kept record comes from the rows with coordinates, no pair repeats, and every pair present is kept |
| RefineHigher.FinalRows | scripts/05_refine_higher.py:135-158 | fails exactly when there is no unique location (the period column cannot be assigned on an empty frame) or a start date is NaT; otherwise one output row per record with its analysis columns |
| RefineHigher.NoCoordinatesNoUnique | scripts/05_refine_higher.py:126-133 | rows none of which has both coordinates leave no unique location, since the grouping drops null pairs |
| RefineHigher.NoGeocodedRowsFails | scripts/05_refine_higher.py:110-147 | with no geocoded rows the script stops with an error instead of writing a file |
| RefineHigher.FinalRowsColumns | scripts/05_refine_higher.py:149-158 | each output row carries its record's status and coordinates |
| RefineHigher.FinalRowsPeriods | scripts/05_refine_higher.py:143-147 | each period starts with the ISO opening date and ends in `Present` exactly when there is no closing date |
| RefineHigher.FinalRowsKeepCoordinates | scripts/05_refine_higher.py:135-158 | distinct non-null pairs in the records stay distinct and non-null in the output |
| RefineHigher.UniqueFinalCoordinates | scripts/05_refine_higher.py:126-158 | the output has non-null coordinates and no pair twice |
| RefineHigher.FinalRowsKeepStatuses | scripts/05_refine_higher.py:135-158 | every output status is a status of the input records |
| RefineHigher.UniqueFinalStatuses | scripts/05_refine_higher.py:126-158 | every output status is the status of some merged row |
| RefineHigher.RefinedHigherRows | scripts/05_refine_higher.py:93-158 | the written file has coordinates on every row, no coordinate pair twice, and only Active or Closed statuses |
| RefineHigher.ProcessDatasets | scripts/05_refine_higher.py:93-174 | the script's result is the specification of the whole step |
| RefineLocations.SectorNamed | scripts/05_refine_locations.py:36-63 | the table of a sector name, none for any other name |
| RefineLocations.FacilityLabel | scripts/05_refine_locations.py:36-63 | a sector's table has a label exactly for its listed codes, never `Other` |
| RefineLocations.FacilityTablesDisjoint | scripts/05_refine_locations.py:36-63 | no code appears in two sectors' tables |
| RefineLocations.CategorizeFacility | scripts/05_refine_locations.py:84-88 | `Other` unless the sector has a table listing the code, and then that label |
| RefineLocations.CategorizeFacilityOneSector | scripts/05_refine_locations.py:84-88 | a code labelled in two sectors' runs belongs to one sector |
| RefineLocations.SectorCodesLabelled | scripts/05_refine_locations.py:36-63 | of the codes that the merge step sends to a sector, all primary and secondary codes are labelled, but only ILOC and LOC of the vocational and higher ones |
| RefineLocations.AddressJoin | scripts/05_refine_locations.py:119-124 | the address merge pairs each base row with its geocoded matches |
| RefineLocations.AddressJoinKeepsRows | scripts/05_refine_locations.py:119-124 | every base row survives the merge |
| RefineLocations.AddressJoinSameLength | scripts/05_refine_locations.py:119-124 | no row is added when no address repeats in the geocoded file |
| RefineLocations.AddressJoinRowAt | scripts/05_refine_locations.py:119-124 | the `m`-th merged row of base row `i` carries the `m`-th match's coordinates |
| RefineLocations.AddressJoinUnmatched | scripts/05_refine_locations.py:119-124 | a base row without a match is kept once with null coordinates |
| RefineLocations.AddressJoinNoMatches | scripts/05_refine_locations.py:119-124 | when nothing matches, the merge is the base file row for row without coordinates |
| RefineLocations.GeocodedAddressesEndWithCountry | scripts/04_geocode_locations.py:98-106 | every address in a geocoded file is a rebuilt one ending in `, Netherlands` |
| RefineLocations.RebuiltAddressesNeverMatch | scripts/05_refine_locations.py:120-124 | base addresses that lack that ending find no coordinates: the merge returns the base rows unchanged, with null coordinates |
| RefineLocations.FacilityFrame.AddEmptyCoordinates | scripts/05_refine_locations.py:129-131 | adds null latitude and longitude to every row, and nothing else changes |
| RefineLocations.MergedFacilities | scripts/05_refine_locations.py:106-133 | for primary or without a geocoded file, the base rows as they are; otherwise the address merge |
| RefineLocations.AnalysisError | scripts/05_refine_locations.py:135-157 | no error exactly when the analysis succeeds; the conversion error exactly when some date cannot be read; an error for a frame with no rows |
| RefineLocations.AnalysisStatus | scripts/05_refine_locations.py:148 | after conversion the status is never Unknown and is Active exactly when the location still operates |
| RefineLocations.Analysed | scripts/05_refine_locations.py:143-155 | every row gets its analysis columns, and nothing else changes |
| RefineLocations.OutputColumns | scripts/05_refine_locations.py:169-179 | the sixteen kept columns, followed by latitude and longitude when the frame has them |
| RefineLocations.Selected | scripts/05_refine_locations.py:181 | one output row per row, in order |
| RefineLocations.Written | scripts/05_refine_locations.py:159-184 | one written row per merged row |
| RefineLocations.RefinedLocations | scripts/05_refine_locations.py:159-194 | fails exactly when the analysis fails, with its error, an empty merged frame included; otherwise the columns and rows of the written file |
| RefineLocations.EmptySectorFails | scripts/05_refine_locations.py:151-194 | a sector without base rows is not written: the period column cannot be assigned and `process` re-raises |
| RefineLocations.LocationRefiner.constructor | scripts/05_refine_locations.py:17-19 | the refiner keeps the lowered sector name |
| RefineLocations.LocationRefiner.LoadAndMergeData | scripts/05_refine_locations.py:106-133 | a fresh frame holding the merged rows, with coordinate columns exactly when the sector is not primary |
| RefineLocations.LocationRefiner.AddTemporalAnalysis | scripts/05_refine_locations.py:135-157 | reports the conversion or period error, also on a frame with no rows, or analyses every row in place |
| RefineLocations.LocationRefiner.Process | scripts/05_refine_locations.py:159-194 | the method's result is the specification of the whole step |
| RefineLocations.WrittenRowOrigin | scripts/05_refine_locations.py:169-181 | each written row carries its base row's columns, and its coordinates exactly when the sector is not primary |
| RefineLocations.WrittenRowStatus | scripts/05_refine_locations.py:144-148 | each written status is Active or Closed as the end date says, and its facility type is the sector's label |
| RefineLocations.WrittenRowPeriod | scripts/05_refine_locations.py:151-155 | each period starts with the ISO opening date and ends in the ISO closing date, or `Present` exactly when there is none |
| RefineLocations.RefinedStatusesKnown | scripts/05_refine_locations.py:90-104 | no written status is Unknown |
| RefineLocations.PrimaryRows | scripts/05_refine_locations.py:115-131 | the primary file keeps every base row in order, without coordinate columns |
| RefineLocations.UngeocodedRows | scripts/05_refine_locations.py:126-131 | without a geocoded file a non-primary sector keeps every row, with null coordinates |
| RefineLocations.WrittenJoinRowAt | scripts/05_refine_locations.py:119-181 | the written row of a base row's `m`-th match carries that match's coordinates |
| RefineLocations.GeocodedRowAt | scripts/05_refine_locations.py:115-184 | in the file written for a non-primary sector, each base row's matches give its coordinates |
| RefineLocations.GeocodedRowUnmatched | scripts/05_refine_locations.py:115-184 | an unmatched base row is written once with null coordinates |

## Left out

- Printing and logging, including the progress reports, `debug_dataset` (`scripts/03_merge_datasets.py:10-22`) and `log_summary_statistics` (`scripts/05_refine_locations.py:196-214`). None of them changes the data.
- Reading and writing CSV files. A file is a sequence of rows, and a file that is missing or unreadable is `None`. The model leaves out how `read_csv` infers column types; whether a key column contains nulls follows from the `Option` cells.
- The merge script's early return when an input file is missing (`scripts/03_merge_datasets.py:58-64`). The model starts from the loaded organisation rows.
- The lookup table `edu_types` (`scripts/03_merge_datasets.py:75`). It is built but never used.
- The stray re-read of the primary file inside the sector loop (`scripts/03_merge_datasets.py:129-131`). It only prints.
- The module-level exit of the function scripts when no API key is set (`scripts/04_geocode_vocational.py:11-16`). The model receives the provider as a parameter.
- The `main` loops over the four sectors (`scripts/04_geocode_locations.py:153-170` and `scripts/05_refine_locations.py:216-231`). Each sector is independent, and each script's processing of one sector is modelled.
- The file paths of the function scripts and of the refiner. The refiner builds them from the sector name as given, before lowering.
- The geocoder's wall-clock timing. `EstimateGeocodingTime` works in whole seconds.
- The unused `batch_size` parameters, which only pace the progress reports.
- Temporal.OperationDays: returns the whole-day difference `(end - start).days`. The division by 365.25 and the rounding to one decimal are floating-point arithmetic and are not modelled. The day count may be negative, as in the source.
- Temporal.DetermineLocationStatus: `pd.Timestamp.now()` is a single date parameter `now`, shared by every row. The source reads the clock once per row.
- MergeDatasets.CoerceCell: the format-guessing `pd.to_datetime` of the merge script is a parameter `infer`, not a model of pandas' parser.
- RefineHigher.MostRecentRecord: with several records sharing the latest start date, the source's sort picks one of them by an unspecified rule. The contract only promises one with the latest start.
- RefineHigher.Latest: the re-conversion of the dates inside each group (`scripts/05_refine_higher.py:82-83`) is not modelled; the dates are already converted at that point.
- RefineLocations.LocationRefiner.AddTemporalAnalysis: when the date conversion raises, the model leaves the rows unchanged. In the source, `to_datetime` of the first column may already have changed the frame. That frame is never used, because the exception propagates out of `process`.
- RefineLocations.MergedFacilities: the base file is taken to have no `latitude` column of its own. Only the geocoded file or the empty columns added for a non-primary sector supply one.
- Geocoding.AddressFrame.PrepareAddresses: the address preparation assumes the table has the columns `full_address`, `POSTCODE_VEST`, `NAAM_PLAATS_VEST` and `PROVINCIE_VEST` (the fields of `Geocoding.AddressRow`). Without one of them the source raises KeyError (`scripts/04_geocode_locations.py:55-59`, `scripts/04_geocode_vocational.py:54-58`, `scripts/04_geocode_primary.py:55-59`); the model has no such error path. The columns always exist in the sector files that the merge step writes.
- RefineHigher.ProcessDatasets: the records (`RefineHigher.Location`) hold every column that the final selection names; a file missing one of them makes the source raise KeyError (`scripts/05_refine_higher.py:158`), which the model does not represent.
- RefineLocations.LocationRefiner.Process: the base rows (`RefineLocations.BaseLocation`) hold every column of `keep_columns`; a file missing one of them makes the source raise KeyError (`scripts/05_refine_locations.py:181`), which the model does not represent.
- Exception messages are kept only as representative strings. A row records only the fact that an error occurred, not its text.
- Regular expressions, `lower` and `strip` are modelled on ASCII. Unicode digits, letters and whitespace are not.
- No geocoding cache is kept and no address is trimmed, as in the source. Quota errors consume an attempt, as the code's `for attempt` loop does.
