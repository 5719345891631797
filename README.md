# Fire incident analysis: a verified model of the data pipeline

This project holds a model, written in Dafny, of the data-processing core of the Austin fire
incident analysis. The analysis relates Austin Fire Department incidents to the housing mix
of the response areas they fall in. The model covers:

- the incident cleaning step (`02_clean_incidents.py`):
  - column-name normalisation;
  - location parsing into a latitude and a longitude, checked against a bounding box;
  - keyword flags for structure, vehicle, outdoor and trash fires, and the summary category;
  - the AFD jurisdiction filter and the deduplication by incident number;
  - the combination of the recent and historical extracts;
- the census and crosswalk step (`03_create_crosswalk.py`):
  - promotion of the header row and construction of the tract GEOID;
  - the housing-type and building-age buckets;
  - the tract weights of the tract / response-area intersections;
  - the weighted allocation of census counts to response areas;
  - the density classes;
- the incident aggregation and rate engine (`04_analysis.py`):
  - choosing the join column and joining incidents to areas;
  - incident counts per area and per fire type, with zero-filling of areas without incidents;
  - guarded per-1,000 rates and the annualised rates;
  - the urban-class, single-family-share and building-age summaries;
  - the other-fires residual;
  - the station-coverage ratios;
- the NFIRS 5.0 cause analysis (`06_nfirs_cause_analysis.py`):
  - the code lookup table;
  - the TX/WP801 extraction and the join of the Fire and Basic modules;
  - the property-use, cause, heat-source, area-of-origin, sprinkler and fire-spread classifiers;
  - the residential filter;
  - the row-normalised cross tables and the key-finding shares;
- the prototype helpers (`analysis.py`):
  - the location-string parser;
  - the density classifier without an "unknown" class;
  - the housing mix in which missing values propagate;
  - the share bins without a closed lowest bin;
  - the unguarded per-1,000 rate.
  The density classifier, the housing mix, the share bins and the rate are each proved side by
  side with the later version of the same step. The location parser is modelled on its own and
  is not compared with the cleaning step's parser (02_clean_incidents.py:38-70), from which it
  differs in three ways: it always takes the first field as the longitude, where the cleaning
  step takes the negative coordinate as the longitude; it accepts a string without
  parentheses; and it applies no Austin bounding box.

The data model follows pandas closely:

- A frame is a `Frames.Table`: column names plus rectangular rows of cells. A cell is missing,
  text, a number or a boolean. A column is read by the first column carrying its name.
- A quotient that pandas may turn into an IEEE 754 special value is a `Numeric.Float`. Dividing
  a positive number by zero gives an infinity; a quotient with NaN gives NaN. An aggregated sum
  skips NaN.
- Counts and census values are exact reals.
- An NFIRS record is a map from field name to text. An absent field plays the part of NaN.
- Code that changes a frame in its caller is modelled by classes whose methods reassign the frame:
  `CleanIncidents.IncidentFrame`, `NfirsTables.IncidentFrame`, `Prototype.IncidentFrame` and
  `Prototype.AreaFrame`.
- Loops over columns or files are methods with loop invariants. Each is proved equal to a
  specification function, and the properties are proved about that function.

Module layout:

- The helper modules are `Wrappers`, `Numeric`, `Text`, `Columns`, `Frames`, `Sequences`,
  `Joins` and `Grouping`.
- Each source file maps to one or two modules: `CleanIncidents`; `Census` and `Crosswalk`;
  `IncidentAnalysis` and `IncidentSummaries`; `NfirsCodes` and `NfirsTables`; `Prototype`.

## Model

| member | source | states |
|---|---|---|
| CleanIncidents.NormalizeName | 02_clean_incidents.py:33 | the name keeps its length; each character is lower-cased, or becomes `_` where it was a space or a hyphen; no upper-case letter, space or hyphen remains |
| CleanIncidents.NormalizeNameIdempotent | 02_clean_incidents.py:33 | normalising a normalised name changes nothing |
| CleanIncidents.NormalizeNames | 02_clean_incidents.py:33 | every name of the list is normalised, in place |
| CleanIncidents.StandardizeColumns | 02_clean_incidents.py:31-34 | every column is renamed by the normalisation; every cell stays where it was |
| CleanIncidents.StandardizeIdempotent | 02_clean_incidents.py:31-34 | standardising twice is standardising once |
| CleanIncidents.MatchAt | 02_clean_incidents.py:47 | a match of `\(([^,]+),\s*([^)]+)\)` at one position captures a non-empty first field without a comma and a non-empty second field without `)` |
| CleanIncidents.SearchFrom | 02_clean_incidents.py:47 | the search returns the match at the leftmost position that has one, and nothing when no position matches |
| CleanIncidents.PairTextMatches | 02_clean_incidents.py:40-47 | the documented rendering "(a, b)" extracts exactly the fields a and b |
| CleanIncidents.AssignAxes | 02_clean_incidents.py:54-62 | a negative first coordinate is the longitude; otherwise, a missing one included, the first coordinate is the latitude |
| CleanIncidents.LocatePoint | 02_clean_incidents.py:46-68 | a row keeps a point only when the pattern matched and the point lies in the Austin box |
| CleanIncidents.LocateEitherOrder | 02_clean_incidents.py:40-62 | "(lon, lat)" and "(lat, lon)" give the same point, with a negative longitude and a non-negative latitude, or no point outside the box |
| CleanIncidents.WriteRawAxes | 02_clean_incidents.py:57-62 | the longitude and latitude columns are written for every row |
| CleanIncidents.ClearOutside | 02_clean_incidents.py:64-68 | clearing out-of-box points keeps the columns and the rows |
| CleanIncidents.ParseLocation | 02_clean_incidents.py:37-70 | without a location column the frame is returned unchanged; otherwise it gains a longitude and a latitude column |
| CleanIncidents.ParsedRow | 02_clean_incidents.py:46-68 | each row's coordinates are exactly the point read from that row's own location text |
| CleanIncidents.ParseKeepsOthers | 02_clean_incidents.py:57-68 | every column other than latitude and longitude keeps its cells |
| CleanIncidents.ParsedPointsInBox | 02_clean_incidents.py:64-68 | after parsing, a row has a latitude exactly when it has a longitude, and then the point lies in [29, 32] x [-99, -96] |
| CleanIncidents.ProblemText | 02_clean_incidents.py:89 | the problem text is upper-cased; a missing problem reads as "" |
| CleanIncidents.FlagsOf | 02_clean_incidents.py:91-105 | each flag holds exactly when some keyword of its list occurs in the upper-cased problem text |
| CleanIncidents.NoKeywordInEmpty | 02_clean_incidents.py:89-105 | the empty text contains none of the non-empty keywords |
| CleanIncidents.MissingProblemNoFlags | 02_clean_incidents.py:89-105 | an incident without a problem text raises no flag |
| CleanIncidents.FlagsIgnoreCase | 02_clean_incidents.py:89 | the flags do not depend on letter case |
| CleanIncidents.CategoryOfProblem | 02_clean_incidents.py:108-118 | the category is the first raised flag in the order structure, vehicle, outdoor, trash, and "Other" when none is raised; each case is an if-and-only-if over the keyword lists |
| CleanIncidents.CategoryLabelsDistinct | 02_clean_incidents.py:108-118 | the five category labels are distinct |
| CleanIncidents.ClassifyBy | 02_clean_incidents.py:96-120 | adding the flag and category columns keeps every row |
| CleanIncidents.ClassifyIncidentType | 02_clean_incidents.py:73-122 | without a problem column the frame is returned unchanged; otherwise every row is kept |
| CleanIncidents.ClassifiedRow | 02_clean_incidents.py:78-120 | each row's four flags and category come from that row's text in the first present problem column |
| CleanIncidents.ClassifyKeepsOthers | 02_clean_incidents.py:96-120 | classification leaves every other column unchanged |
| CleanIncidents.KeepAfd | 02_clean_incidents.py:177-189 | the filter keeps the columns; without a jurisdiction column the frame is unchanged |
| CleanIncidents.KeepAfdExactly | 02_clean_incidents.py:188 | the filter keeps exactly the rows whose upper-cased jurisdiction is "AFD", in their order, and distributes over concatenation |
| CleanIncidents.KeepAfdIdempotent | 02_clean_incidents.py:188 | filtering twice is filtering once |
| CleanIncidents.DropDuplicates | 02_clean_incidents.py:192-202 | deduplication keeps the columns and never adds rows; without an incident-number column the frame is unchanged |
| CleanIncidents.DedupSubseqMembers | 02_clean_incidents.py:200 | every kept row is a row of the input |
| CleanIncidents.DropDuplicatesSpec | 02_clean_incidents.py:200 | the kept rows have distinct incident numbers, keep their order, keep the input's set of incident numbers, and each is the first row with its number |
| CleanIncidents.DropDuplicatesIdempotent | 02_clean_incidents.py:200 | deduplicating twice is deduplicating once |
| CleanIncidents.MissingFrom | 02_clean_incidents.py:154 | the columns a second frame adds are exactly those the first lacks |
| CleanIncidents.Realign | 02_clean_incidents.py:154 | a row laid out over the union of columns has one cell per column |
| CleanIncidents.RealignLookup | 02_clean_incidents.py:154 | realigning a row keeps the value of every column it had |
| CleanIncidents.Concat | 02_clean_incidents.py:154 | the concatenation holds the rows of the first frame and then those of the second, over the union of their columns, with every value kept and absent columns missing |
| CleanIncidents.Combined | 02_clean_incidents.py:135-168 | both extracts, standardised and combined if the historical one exists, form a rectangular frame |
| CleanIncidents.CleanIncidents | 02_clean_incidents.py:125-211 | a successful run yields a rectangular frame with a category and a latitude column; the run fails where the script raises KeyError |
| CleanIncidents.CleanSucceeds | 02_clean_incidents.py:170-211 | a frame with a location column and a problem column is cleaned without error |
| CleanIncidents.IncidentFrame.constructor | 02_clean_incidents.py:133 | the frame holds the loaded table |
| CleanIncidents.IncidentFrame.Standardize | 02_clean_incidents.py:141-161 | the frame's columns are renamed in place as StandardizeColumns says |
| CleanIncidents.IncidentFrame.Locate | 02_clean_incidents.py:172 | the frame becomes ParseLocation of itself |
| CleanIncidents.IncidentFrame.Classify | 02_clean_incidents.py:206 | the frame becomes ClassifyIncidentType of itself |
| CleanIncidents.IncidentFrame.SelectRows | 02_clean_incidents.py:176-202 | the frame is replaced by its AFD rows, deduplicated |
| CleanIncidents.Clean | 02_clean_incidents.py:125-211 | the statement-by-statement run computes CleanIncidents |
| Census.YearBuiltCodesBuilt | 03_create_crosswalk.py:209 | the year-built codes are B25034_001E to B25034_011E, each built by zero-padding |
| Census.PromoteHeader | 03_create_crosswalk.py:120-127 | when the first cell is the marker code, the first row becomes the column names and is dropped; otherwise the table is unchanged; an empty table is refused, as `iloc[0, 0]` raises |
| Census.HeaderNames | 03_create_crosswalk.py:122 | each column is named by the text of its header cell |
| Census.GeoIdLayout | 03_create_crosswalk.py:132-137 | the GEOID has 11 characters: the state padded to 2, the county to 3 and the tract to 6 |
| Census.DigitsDetermine | 03_create_crosswalk.py:132-137 | two digit strings of equal length and value are equal |
| Census.ZFillSameValue | 03_create_crosswalk.py:132-137 | zero-padding identifies digit strings exactly by their value |
| Census.SameShapeParts | 03_create_crosswalk.py:132-137 | concatenations of parts of equal lengths are equal exactly when the parts are |
| Census.GeoIdInjective | 03_create_crosswalk.py:132-137 | two GEOIDs are equal exactly when the state, county and tract numbers are |
| Census.Raw | 03_create_crosswalk.py:154-160 | a row yields one optional number per requested code |
| Census.HousingBuckets | 03_create_crosswalk.py:162-171 | the total is kept as read; each bucket is the zero-filled sum of its codes; multifamily is duplex + small + large; the buckets partition codes 002-011 |
| Census.UnitBucketSums | 03_create_crosswalk.py:164-171 | each bucket sum is the sum of its zero-filled entries, and the three slices sum to the whole |
| Census.SliceSums | 03_create_crosswalk.py:164-171 | a short slice sums entry by entry |
| Census.AgeBuckets | 03_create_crosswalk.py:214-225 | the year-built total is kept as read; the 2010+, 1970-2009 and pre-1970 buckets are zero-filled sums that partition codes 002-011 |
| Census.DecadeBucketSums | 03_create_crosswalk.py:216-225 | each age bucket is the sum of its zero-filled entries |
| Census.PopulationRows | 03_create_crosswalk.py:140 | one population row per table row |
| Census.HousingRows | 03_create_crosswalk.py:162-171 | one housing row per table row |
| Census.AgeRows | 03_create_crosswalk.py:214-225 | one year-built row per table row |
| Census.TractsOfPairs | 03_create_crosswalk.py:174-179 | each outer-join pair becomes one tract |
| Census.WithAges | 03_create_crosswalk.py:228-232 | each left-join pair becomes one tract, with its age buckets when matched |
| Census.ProcessCensusData | 03_create_crosswalk.py:113-242 | the run with its conversion loops computes the specification ProcessCensus, which builds the GEOID when the population table has state, county and tract (the year-built table: when it has `state`) and otherwise merges on the tables' own GEOID |
| Census.ProcessCensusOutcome | 03_create_crosswalk.py:113-179 | with readable headers the census step fails exactly when a column it reads is missing: the housing GEOID parts when the population table has its parts, otherwise a GEOID column on both sides, and the population and housing codes |
| Census.ExistingGeoIdKeys | 03_create_crosswalk.py:130-179 | tables without state, county and tract are merged on their own GEOID: every population and housing row gives a tract keyed by the text of its GEOID cell |
| Census.MergeHousingCovers | 03_create_crosswalk.py:174-179 | the outer merge keeps every population row and every housing row |
| Census.MergeHousingSides | 03_create_crosswalk.py:174-179 | every merged tract comes from a population row, a housing row or both with its GEOID |
| Census.AddAgeKeepsTracts | 03_create_crosswalk.py:228-232 | the left merge keeps every tract in order, and adds age buckets exactly to tracts whose GEOID has a year-built row |
| Crosswalk.MaxTextLength | 03_create_crosswalk.py:270 | the result is the length of some text cell and bounds every text cell; it is missing exactly when no cell is text |
| Crosswalk.TractIds | 03_create_crosswalk.py:266-271 | the ids exist exactly when the column holds text, one per tract |
| Crosswalk.TractIdsPrefix | 03_create_crosswalk.py:270-271 | when the longest id has 6 characters, every id becomes the 11-character "48453" + zero-padded tract; otherwise every id is kept |
| Crosswalk.PrefixedIdIsGeoId | 03_create_crosswalk.py:271 | a prefixed tract code is the GEOID that the census step builds for state 48 and county 453 |
| Crosswalk.AreaIdColumn | 03_create_crosswalk.py:274-284 | the id column is the first column whose lower-cased name mentions "response", or "area" without "id", with an object or int64 dtype; failing that, the first column other than the geometry; none is the IndexError |
| Crosswalk.ChooseAreaIdColumn | 03_create_crosswalk.py:274-284 | the loop with its early exit computes AreaIdColumn |
| Crosswalk.Weight | 03_create_crosswalk.py:298 | the weight is intersect area / tract area, and is not finite when the tract area is 0 |
| Crosswalk.WeightInUnitRange | 03_create_crosswalk.py:298 | a piece no larger than its tract has a weight in [0, 1] |
| Crosswalk.MakeCrosswalk | 03_create_crosswalk.py:245-311 | one crosswalk row per overlay piece, carrying its weight and the id of its response area |
| Crosswalk.LayerColumns | 03_create_crosswalk.py:275-280 | each layer column pairs a name with its dtype |
| Crosswalk.CreateCrosswalk | 03_create_crosswalk.py:245-311 | the method with its loops computes MakeCrosswalk |
| Crosswalk.WeightSumCoverage | 03_create_crosswalk.py:298-305 | for a tract, the summed intersect area is the tract area times the summed weights |
| Crosswalk.FullCoverage | 03_create_crosswalk.py:304-309 | a tract's weights sum to 1 exactly when its pieces cover its whole area |
| Crosswalk.WeightedColumn | 03_create_crosswalk.py:334 | each weighted value is the merged value times the row's weight |
| Crosswalk.DistinctIds | 03_create_crosswalk.py:339 | the group keys are distinct and not missing, each is some row's id, and every row with an id is in a group |
| Crosswalk.WeightedColumns | 03_create_crosswalk.py:332-334 | every weighted column has one entry per merged row |
| Crosswalk.Allocate | 03_create_crosswalk.py:314-356 | one demographics record per distinct response-area id of the crosswalk, and no other (in first-appearance order, while pandas sorts the ids: see Left out); AllocatedExactly states the sums |
| Crosswalk.AllocateDemographics | 03_create_crosswalk.py:314-356 | the method with its loop over the measures computes Allocate |
| Crosswalk.AllocationLinear | 03_create_crosswalk.py:334-339 | allocation is linear in the tract values |
| Crosswalk.AllocationIgnoresUnlisted | 03_create_crosswalk.py:325-339 | a tract without crosswalk rows does not affect any area |
| Crosswalk.AllocationConserved | 03_create_crosswalk.py:334-339 | the total over the areas equals the total each tract hands out through its weights |
| Crosswalk.TractHandsOut | 03_create_crosswalk.py:334-339 | what a tract hands out is its value times its weight sum |
| Crosswalk.AllocationBounded | 03_create_crosswalk.py:334-339 | for non-negative values and weight sums at most 1, the areas receive at most the tract total |
| Crosswalk.AllocationExact | 03_create_crosswalk.py:334-339 | when every tract's weights sum to 1, the areas receive exactly the tract total |
| Crosswalk.GroupSumExact | 03_create_crosswalk.py:339 | a group sum of finite weighted values is the exact real sum over the group |
| Crosswalk.MergedTract | 03_create_crosswalk.py:325 | the left merge keeps each crosswalk row, matched to the first tract with its GEOID exactly when there is one |
| Crosswalk.AreaSumIsAllocation | 03_create_crosswalk.py:325-339 | the pandas group sum of a weighted column is the allocation of that measure |
| Crosswalk.RowAgrees | 03_create_crosswalk.py:334 | each weighted merged value agrees with the row's contribution, an unmatched tract counting 0 |
| Crosswalk.MergeKeepsCrosswalk | 03_create_crosswalk.py:325 | the merge keeps the crosswalk rows in order |
| Crosswalk.AllocatedExactly | 03_create_crosswalk.py:332-342 | each area's sum of a present measure is exactly its allocation |
| Crosswalk.AllocatedPopulationBounded | 03_create_crosswalk.py:334-360 | the allocated population totals at most the census population when weight sums are at most 1 |
| Crosswalk.AllocateIgnoresUnlisted | 03_create_crosswalk.py:325 | adding a census tract that no crosswalk row names leaves the allocation unchanged |
| Crosswalk.PctCases | 03_create_crosswalk.py:346-356 | a missing side gives 0, 0/0 gives 0, x/0 keeps the sign's infinity, and a part within its total gives a share in [0, 100] |
| Crosswalk.ClassifyBands | 03_create_crosswalk.py:381-389 | a finite density gets class c exactly when it lies in c's band, with both thresholds in the denser class and 0 unknown |
| Crosswalk.ClassifyMonotone | 03_create_crosswalk.py:381-389 | among positive densities, a denser area is never less urban |
| Crosswalk.ProfileOf | 03_create_crosswalk.py:371-391 | an area without demographics has a missing population and density and the class "unknown" |
| Crosswalk.ProfileRows | 03_create_crosswalk.py:369-391 | every response area appears once, in order, with the demographics of its id exactly when there are any |
| Crosswalk.AllocationKeys | 03_create_crosswalk.py:339 | the demographics have unique ids, exactly the distinct crosswalk ids |
| Crosswalk.ProfilesOfAllocation | 03_create_crosswalk.py:369-391 | a response area lacks demographics exactly when no crosswalk row names it, and is then "unknown" |
| Crosswalk.NotAKey | 03_create_crosswalk.py:339 | a missing id, or one no row carries, is not a group key |
| IncidentAnalysis.MentionsEither | 04_analysis.py:60 | a name mentions one of two words exactly when its lower-cased form contains one of them |
| IncidentAnalysis.IncidentAreaColumn | 04_analysis.py:58-62 | the incident area column is the first one whose lower-cased name contains "responsearea" or "response_area"; none exactly when no column does |
| IncidentAnalysis.BoundaryIdColumn | 04_analysis.py:65-71 | "response_area_id" when present; otherwise the first column mentioning "response" or "area"; none exactly when no column does |
| IncidentAnalysis.AsText | 04_analysis.py:86-87 | `astype(str)` always yields text and keeps text as it is |
| IncidentAnalysis.JoinIncidents | 04_analysis.py:49-105 | without an incident area column the outcome is the spatial join; without a boundary id column the script fails; otherwise both tables keep their rows and gain a text "response_area_id" copied from the chosen columns |
| IncidentAnalysis.JoinIncidentsToAreas | 04_analysis.py:49-105 | the method with its column loops computes JoinIncidents |
| IncidentAnalysis.JoinedKeysPresent | 04_analysis.py:86 | after the attribute join every incident has a text area id |
| IncidentAnalysis.GroupKeys | 04_analysis.py:115 | the group keys are distinct, non-missing cells of the column, and every non-missing cell is one of them |
| IncidentAnalysis.Aggregate | 04_analysis.py:108-149 | one count row per group key, and no other (in first-appearance order, while pandas sorts the keys: see Left out); PairCounts states the counts |
| IncidentAnalysis.AggregateIncidents | 04_analysis.py:108-149 | the method with its merges and its year-column loop computes Aggregate |
| IncidentAnalysis.TotalsConserved | 04_analysis.py:115 | the group sizes add up to the number of incidents with an area id |
| IncidentAnalysis.SumOfOnes | 04_analysis.py:115 | counting each row once sums to the number of rows |
| IncidentAnalysis.JoinedTotalsConserved | 04_analysis.py:73-115 | after the attribute join the totals add up to the number of incidents |
| IncidentAnalysis.FlagTotalBounded | 04_analysis.py:118-133 | a fire-type count lies between 0 and the group's total |
| IncidentAnalysis.MergeCounts | 04_analysis.py:163 | the left merge keeps at least every response area |
| IncidentAnalysis.Filled | 04_analysis.py:165-169 | after filling, the total is not missing, a fire-type column exists exactly when it existed and is not missing |
| IncidentAnalysis.FillColumnsAll | 04_analysis.py:166-169 | the loop over the four count columns fills them all |
| IncidentAnalysis.FillIncidentCounts | 04_analysis.py:165-169 | the method with its loop computes the filled counts |
| IncidentAnalysis.CountKeysUnique | 04_analysis.py:115-133 | the count rows have distinct area ids |
| IncidentAnalysis.UnmatchedKeyAbsent | 04_analysis.py:115 | an area id without a count row has no incident |
| IncidentAnalysis.PairCounts | 04_analysis.py:163-169 | a merged area's counts are its number of incidents and of each fire type, 0 when it has none |
| IncidentAnalysis.MergedCountsExact | 04_analysis.py:163-169 | every response area appears once, in order, with exactly its number of incidents and its numbers of structure, vehicle and outdoor fires (0 when it has none, and no column where the incidents have none) |
| IncidentAnalysis.PerThousandGuarded | 04_analysis.py:173-197 | a guarded rate is NaN exactly when the denominator is not positive, is never infinite, and is count / denominator x 1000 and non-negative otherwise |
| IncidentAnalysis.AnnualizeProperties | 04_analysis.py:202-203 | dividing by one year keeps the rate, n years divide it by n, and NaN stays NaN |
| IncidentAnalysis.MergeIncidents | 04_analysis.py:152-207 | the result fails exactly when years are known and a rate column, which needs "population" and "total_units", is missing |
| IncidentAnalysis.MergeWithDemographics | 04_analysis.py:152-207 | the method computes MergeIncidents as corrected |
| IncidentAnalysis.MergeIncidentsAsWritten | 04_analysis.py:152-207 | as written: without years it is the corrected merge; it fails exactly when years are known and a rate column is missing or there is no response area (the IndexError of `iloc[0]`), and otherwise keeps every area |
| IncidentAnalysis.MergedRates | 04_analysis.py:163-197 | each area's rate per 1,000 people is NaN exactly when the population is not positive, and its exact incident count over the population x 1000 otherwise |
| IncidentAnalysis.MergedCountsAt | 04_analysis.py:163-169 | the merged area at position i is response area i with its incident count |
| IncidentAnalysis.RatesOfCounts | 04_analysis.py:171-203 | the four rates follow the guard of each denominator, and the annual rates exist exactly when years are known |
| IncidentAnalysis.FirstAreaWithoutIncidentsLosesAnnualRates | 04_analysis.py:200-203 | as written: when the first response area has no incidents, its filled years are missing and every annual rate of every area is NaN |
| IncidentAnalysis.CorrectedAnnualRates | 04_analysis.py:200-203 | corrected: every annual rate is the area's rate divided by the number of years in the data |
| IncidentSummaries.ClassOf | 04_analysis.py:252-253 | a cell is read as a class exactly when it is that class's label |
| IncidentSummaries.RatioDefined | 04_analysis.py:239-243 | an unguarded ratio is finite exactly when the denominator is not 0, equals x / den x k then, and 0/0 is NaN |
| IncidentSummaries.SumWherePositive | 04_analysis.py:217-224 | a group holding one member with a positive value, all of its values being positive, has a positive sum |
| IncidentSummaries.OccurringKeys | 04_analysis.py:223 | the groups listed are among the ordered classes |
| IncidentSummaries.OccurringExactly | 04_analysis.py:223-254 | a class is listed exactly when it is in the order and some valid row has it |
| IncidentSummaries.UrbanSummary | 04_analysis.py:210-261 | the summary fails exactly when a summed column is missing, lists only urban core, inner suburban and outer suburban, and has annual rates exactly when a number of years is given |
| IncidentSummaries.SummarizeByUrbanClass | 04_analysis.py:244-249 | corrected: the summary fails exactly when a summed column is missing, and each class's annual rates exist exactly when the count table has years, being its rates divided by that number of years |
| IncidentSummaries.SummarizeByUrbanClassAsWritten | 04_analysis.py:244-249 | as written: without years it is the corrected summary; it fails exactly when years are known and there is no merged area, or a summed column is missing, and every class it reports is urban core, inner suburban or outer suburban |
| IncidentSummaries.FirstAreaWithoutIncidentsLosesClassAnnualRates | 04_analysis.py:246-249 | as written: when the first response area has no incidents, every urban class's annual rates are NaN |
| IncidentSummaries.FirstMergedYearsNaN | 04_analysis.py:246-247 | the first merged area, when it has no incidents, carries a NaN `years_of_data` |
| IncidentSummaries.NaNYearsSummary | 04_analysis.py:247-249 | dividing by a NaN number of years makes every class's annual rates NaN |
| IncidentSummaries.UrbanSummaryAgreesWhenFirstMatched | 04_analysis.py:246-249 | when the first area's years are the data's years, the summary as written is the corrected one |
| IncidentSummaries.ClassesPartition | 04_analysis.py:216-223 | the three class sums and the sum over dropped rows add up to the total |
| IncidentSummaries.ClassRatesDefined | 04_analysis.py:217-239 | every listed class has a positive population, so its rate per 1,000 people is finite |
| IncidentSummaries.OccurringClassRate | 04_analysis.py:217-239 | a class with one valid area has a positive population and a defined rate |
| IncidentSummaries.ClassPopulationPositive | 04_analysis.py:217-224 | a class with one valid area has a positive summed population |
| IncidentSummaries.SfCategoryIntervals | 04_analysis.py:278-283 | a share is in bin b exactly when it lies in (low, low + 25] or is 0 for the lowest bin; it has no bin exactly when it is not finite or outside [0, 100] |
| IncidentSummaries.SummarizeByHousingType | 04_analysis.py:264-307 | the summary fails exactly when a summed column is missing, and lists the four bins in their order |
| IncidentSummaries.BinsPartition | 04_analysis.py:271-286 | the four bin sums and the sum over dropped rows add up to the total |
| IncidentSummaries.AnalyzeByBuildingAge | 04_analysis.py:458-526 | no analysis exactly when the 2010+ share or a summed column is missing |
| IncidentSummaries.AgesPartition | 04_analysis.py:471-487 | the newer and older sums and the sum over dropped rows add up to the total |
| IncidentSummaries.MatrixRefinesAges | 04_analysis.py:502-511 | for each age class, the three matrix cells add up to that age class's sum |
| IncidentSummaries.MissingClassIsOuter | 04_analysis.py:502-505 | an area with a missing class passes the "unknown" filter and falls in Outer Suburban in the matrix, while the class grouping drops it |
| IncidentSummaries.ResidualByRows | 04_analysis.py:410-414 | the group size minus the four type counts is the sum of each row's residual |
| IncidentSummaries.OtherFires | 04_analysis.py:410-414 | corrected: the number of incidents of the area with none of the four type flags, which lies between 0 and the group's size |
| IncidentSummaries.OtherAsWritten | 04_analysis.py:410-414 | as written: the group size less the four type totals is the sum over the area's incidents of one less each of its four flag values |
| IncidentSummaries.OtherAsWrittenWhenExclusive | 04_analysis.py:410-414 | when no incident has two type flags, the residual as written is the corrected count |
| IncidentSummaries.OverlappingFlagsGoNegative | 04_analysis.py:410-414 | as written: one incident flagged both structure and vehicle leaves an other-fires count of -1 |
| IncidentSummaries.TypeRows | 04_analysis.py:403-416 | one type-count row per area id, and no other (in first-appearance order, while pandas sorts the ids: see Left out); TypePairCounts states the counts |
| IncidentSummaries.TypeKeysUnique | 04_analysis.py:403 | the type-count rows have distinct area ids |
| IncidentSummaries.TypeKeyAbsent | 04_analysis.py:403 | an area id without a type-count row has no incident |
| IncidentSummaries.TypePairCounts | 04_analysis.py:420-423 | a merged area's five counts are those of its own incidents, 0 when it has none |
| IncidentSummaries.TypedCountsExact | 04_analysis.py:419-423 | every response area appears once, in order, with exactly its type counts |
| IncidentSummaries.AnalyzeByIncidentType | 04_analysis.py:384-455 | fails exactly when a type flag or a demographics column is missing; each class row has five counts and five rates of each kind |
| IncidentSummaries.TypeCountsNonNegative | 04_analysis.py:403-436 | summed per class, each type count is non-negative |
| IncidentSummaries.AnalyzeStationCoverage | 04_analysis.py:672-724 | fails exactly when the population, area or class column is missing |
| IncidentSummaries.PerStationGuarded | 04_analysis.py:715-716 | a per-station ratio is NaN exactly when there is no station, and x / n otherwise |
| IncidentSummaries.StationsCounted | 04_analysis.py:689-702 | the station counts of the three classes and of unplaced stations add up to the number of stations |
| NfirsCodes.HousingLabelInjective | 06_nfirs_cause_analysis.py:202-218 | the five housing labels are distinct |
| NfirsCodes.HousingTypeOf | 06_nfirs_cause_analysis.py:202-218 | unknown exactly for a missing or empty code; single-family exactly for a stripped "419", multifamily for "429", residential exactly when the stripped code starts with "4" |
| NfirsCodes.HousingTypeIgnoresPadding | 06_nfirs_cause_analysis.py:206 | surrounding whitespace does not change the housing type |
| NfirsCodes.BlankPropertyUseIsNonResidential | 06_nfirs_cause_analysis.py:203-218 | a code of only whitespace passes the empty test and is non-residential |
| NfirsCodes.HeatPrefix | 06_nfirs_cause_analysis.py:239 | the prefix is at most the first two characters of the stripped code, and exactly two when there are two |
| NfirsCodes.HeatFamily | 06_nfirs_cause_analysis.py:240-251 | cooking exactly for 12-15, heating exactly for 10-11, electrical exactly for a prefix starting with "4", smoking exactly for 61-63, open flame exactly for 64-66, other for every remaining prefix; never unknown |
| NfirsCodes.HeatSourceOf | 06_nfirs_cause_analysis.py:236-251 | unknown exactly for a missing, empty, "UU" or "NN" code, otherwise the family of its prefix |
| NfirsCodes.HeatSourceByPrefix | 06_nfirs_cause_analysis.py:239 | two recorded codes with the same prefix have the same heat source |
| NfirsCodes.HeatSourceOfSubcode | 06_nfirs_cause_analysis.py:239 | a recorded subcode has the heat source of its two-digit family |
| NfirsCodes.PaddedUnrecordedHeatIsOther | 06_nfirs_cause_analysis.py:237-251 | a padded "UU" or "NN" is compared before stripping, and so lands in "Other" |
| NfirsCodes.AreaOfCode | 06_nfirs_cause_analysis.py:259-273 | kitchen exactly for "24", living areas for 21-23, bathroom/laundry for 25-26, garage for "27", mechanical/electrical for 51-53, exterior exactly for the codes starting with "9"; never unknown |
| NfirsCodes.AreaOf | 06_nfirs_cause_analysis.py:256-273 | unknown exactly for an unrecorded code, otherwise the area of the stripped code |
| NfirsCodes.AreaIgnoresPadding | 06_nfirs_cause_analysis.py:259 | surrounding whitespace does not change a recorded area |
| NfirsCodes.AreaMatchesWholeCode | 06_nfirs_cause_analysis.py:239-273 | the area test compares whole codes ("241" is "Other") while heat sources use the prefix ("121" is cooking) |
| NfirsCodes.CauseLabel | 06_nfirs_cause_analysis.py:233 | a mapped code gets its label; "Unknown" exactly for a missing or unmapped code |
| NfirsCodes.IntentionalIsCodeOne | 06_nfirs_cause_analysis.py:35-43 | the cause is "Intentional" exactly for code "1" |
| NfirsCodes.SprinklerPresence | 06_nfirs_cause_analysis.py:388-390 | "Yes" exactly for "Y", "No" exactly for "N", otherwise "Unknown" |
| NfirsCodes.SprinklerOperation | 06_nfirs_cause_analysis.py:404-406 | "Operated" exactly for "Y", "Did not operate" exactly for "N", otherwise "Unknown" |
| NfirsCodes.OperationMirrorsPresence | 06_nfirs_cause_analysis.py:388-406 | the two codings make the same three-way split |
| NfirsCodes.FireSpread | 06_nfirs_cause_analysis.py:418-426 | codes 1 to 5 get their labels; "Unknown" exactly for a missing or other code |
| NfirsCodes.FireSpreadInjective | 06_nfirs_cause_analysis.py:418-426 | two codes with the same known spread label are equal |
| NfirsCodes.Fields | 06_nfirs_cause_analysis.py:117 | the field ids of the lookup rows, in order |
| NfirsCodes.CodeTableLastWins | 06_nfirs_cause_analysis.py:117-119 | a field's table holds exactly the codes listed for it, each with the description of its last row |
| NfirsCodes.LoadCodeLookup | 06_nfirs_cause_analysis.py:102-122 | one table per distinct field id, each equal to CodeTable of the rows |
| NfirsTables.Tagged | 06_nfirs_cause_analysis.py:149 | every record of a file is tagged with the file's year |
| NfirsTables.AustinRecordsExactly | 06_nfirs_cause_analysis.py:140-153 | a record is collected exactly when it is a TX / WP801 record of some file, tagged with that file's year |
| NfirsTables.CollectAustin | 06_nfirs_cause_analysis.py:140-153 | the loop over the files computes AustinRecords |
| NfirsTables.Select | 06_nfirs_cause_analysis.py:180-188 | selecting keeps exactly the listed fields |
| NfirsTables.CombineFields | 06_nfirs_cause_analysis.py:176-191 | a merged row keeps the common key, the Basic module's property use and the Fire module's year and cause |
| NfirsTables.MergeModules | 06_nfirs_cause_analysis.py:187-191 | one merged row per matching pair of the inner join |
| NfirsTables.MergedRowMatches | 06_nfirs_cause_analysis.py:187-191 | every merged row combines a Fire record and a Basic record with equal incident keys |
| NfirsTables.MatchingRecordsMerged | 06_nfirs_cause_analysis.py:187-191 | every pair of records with equal incident keys is merged |
| NfirsTables.ExtractAustin | 06_nfirs_cause_analysis.py:125-195 | the extraction fails exactly when either list of files is empty |
| NfirsTables.ExtractedAreAustin | 06_nfirs_cause_analysis.py:147-191 | every extracted record is a TX / WP801 incident |
| NfirsTables.ExtractAustinNfirs | 06_nfirs_cause_analysis.py:125-195 | the method with its loops computes ExtractAustin |
| NfirsTables.HousingTyped | 06_nfirs_cause_analysis.py:220 | every record gains the housing label of its property use, and no other field changes |
| NfirsTables.CauseLabelled | 06_nfirs_cause_analysis.py:233-275 | every record gains its cause, heat-source and area labels, and no other field changes |
| NfirsTables.IncidentFrame.constructor | 06_nfirs_cause_analysis.py:561 | the frame holds the extracted records |
| NfirsTables.IncidentFrame.ClassifyHousingType | 06_nfirs_cause_analysis.py:198-225 | the frame's records become HousingTyped of themselves |
| NfirsTables.IncidentFrame.ClassifyCause | 06_nfirs_cause_analysis.py:228-280 | the frame's records become CauseLabelled of themselves |
| NfirsTables.ClassifiedResidential | 06_nfirs_cause_analysis.py:290 | a classified record is residential exactly when its property use is single-family or multifamily |
| NfirsTables.PercentRow | 06_nfirs_cause_analysis.py:304-308 | one percentage per column label |
| NfirsTables.NormalizeByRow | 06_nfirs_cause_analysis.py:304-308 | the cross table has distinct row and column labels, exactly those that occur, and each entry is 100 x the pair count over the row count |
| NfirsTables.RowCountPositive | 06_nfirs_cause_analysis.py:304-308 | a row label that occurs has a positive count |
| NfirsTables.CellWithinRow | 06_nfirs_cause_analysis.py:304-308 | a pair count lies between 0 and its row count |
| NfirsTables.PercentBounded | 06_nfirs_cause_analysis.py:304-308 | every percentage lies in [0, 100] |
| NfirsTables.RowCountSplits | 06_nfirs_cause_analysis.py:304-308 | the pair counts of a row add up to the row count |
| NfirsTables.PercentRowSumsTo100 | 06_nfirs_cause_analysis.py:304-308 | the percentages of a row that occurs add up to 100 |
| NfirsTables.RowsSumTo100 | 06_nfirs_cause_analysis.py:304-308 | every row of the normalised cross table sums to 100 |
| NfirsTables.Pairs | 06_nfirs_cause_analysis.py:297-308 | one pair per record having both fields |
| NfirsTables.ResidentialTable | 06_nfirs_cause_analysis.py:283-374 | the table is missing exactly when there is no residential record |
| NfirsTables.ResidentialTableRows | 06_nfirs_cause_analysis.py:283-374 | the rows are single-family or multifamily, and each sums to 100 |
| NfirsTables.SprinklerTagged | 06_nfirs_cause_analysis.py:388-390 | every record gains its sprinkler-presence label |
| NfirsTables.SprinklerByHousing | 06_nfirs_cause_analysis.py:382-396 | the table is missing exactly when there is no residential record |
| NfirsTables.OperationTagged | 06_nfirs_cause_analysis.py:404-406 | every record gains its sprinkler-operation label |
| NfirsTables.OperationByHousing | 06_nfirs_cause_analysis.py:402-412 | the table is missing exactly when no residential record has a sprinkler |
| NfirsTables.SpreadPairs | 06_nfirs_cause_analysis.py:418-426 | one spread label per record |
| NfirsTables.SingleRowTable | 06_nfirs_cause_analysis.py:428-437 | shares without a row key form one row summing to 100 |
| NfirsTables.SpreadShares | 06_nfirs_cause_analysis.py:428-437 | the spread shares with or without sprinklers are missing exactly when that group is empty, and otherwise form one row summing to 100 |
| NfirsTables.SharesOf | 06_nfirs_cause_analysis.py:624-629 | the shares exist exactly when both housing types have fires, and lie in [0, 100] |
| NfirsTables.ShareBounded | 06_nfirs_cause_analysis.py:628-629 | a share of a type's fires lies in [0, 100] |
| NfirsTables.PairsOfComplete | 06_nfirs_cause_analysis.py:297-308 | when every record has both fields, the pairs are the records' fields in order |
| NfirsTables.CountsOfComplete | 06_nfirs_cause_analysis.py:615-625 | the key-finding counts are the cross table's counts |
| NfirsTables.ShareIsTableEntry | 06_nfirs_cause_analysis.py:304-308 | the key-finding share equals the normalised cross-table entry |
| NfirsTables.IntentionalSharesMatchCauseTable | 06_nfirs_cause_analysis.py:615-629 | the arson shares of the findings equal the "Intentional" column of the cause table |
| NfirsTables.ArsonComparison | 06_nfirs_cause_analysis.py:634-635 | corrected: a ratio exactly when the multifamily share exceeds a positive single-family share, and it then exceeds 1 and scales one share to the other |
| NfirsTables.ArsonComparisonAsWritten | 06_nfirs_cause_analysis.py:634-635 | as written: a division by zero exactly when the multifamily share exceeds a single-family share of 0, no comparison exactly when the multifamily share does not exceed the single-family one, and otherwise a ratio that scales one share to the other |
| NfirsTables.ArsonComparisonAgrees | 06_nfirs_cause_analysis.py:634-635 | wherever the code as written does not divide by zero, it gives the corrected answer |
| NfirsTables.ClassifiedFields | 06_nfirs_cause_analysis.py:220-233 | classification keeps the records and sets their housing and cause labels |
| NfirsTables.ExampleCodes | 06_nfirs_cause_analysis.py:209-233 | "419" is single-family, "429" multifamily, "1" intentional and "2" unintentional |
| NfirsTables.ExampleClassified | 06_nfirs_cause_analysis.py:220-233 | a single-family accident and a multifamily arson are classified as such |
| NfirsTables.NoSingleFamilyArsonDividesByZero | 06_nfirs_cause_analysis.py:627-635 | as written: with no single-family arson and one multifamily arson, the shares are 0 and 100 and the ratio divides by zero |
| NfirsTables.SharesFromCounts | 06_nfirs_cause_analysis.py:624-629 | the shares are each type's count over its total, times 100 |
| NfirsTables.ExampleCounts | 06_nfirs_cause_analysis.py:611-625 | the two-record example has one fire of each type, and the only arson is multifamily |
| Prototype.LocationFields | analysis.py:125 | stripping the parentheses and splitting at commas always gives at least one field |
| Prototype.ParseLoc | analysis.py:120-129 | a point is found only when there are at least two fields; the first field is the longitude and the second the latitude, and any failure is no point |
| Prototype.ParseLocCell | analysis.py:121-122 | a missing cell, or one that is not text, has no point |
| Prototype.ParseLocRoundTrip | analysis.py:120-129 | "(a,b…)" with numeric a and b parses to the point (a, b), whatever follows the second field |
| Prototype.ParseLocNeedsComma | analysis.py:125-129 | a string without a comma gives no point |
| Prototype.Geometries | analysis.py:131 | one point or none per row, each from that row's own location cell, and a point only from a text cell |
| Prototype.IncidentFrame.constructor | analysis.py:118 | the frame holds the table and no geometry yet |
| Prototype.IncidentFrame.ParseIncidentLocations | analysis.py:118-132 | the table is unchanged and the geometry column is Geometries of it |
| Prototype.ClassifyBands | analysis.py:140-146 | a finite density gets class c exactly when it lies in c's band; a missing density is outer suburban |
| Prototype.ClassifyVersusCrosswalk | analysis.py:140-146 | the prototype and the crosswalk agree on every density except a missing or zero one, which the crosswalk calls unknown and the prototype outer suburban |
| Prototype.UrbanClassified | analysis.py:135-149 | every row gains the class of its own density, and every other column keeps its cells |
| Prototype.SfCategoryNoLowest | analysis.py:245-249 | a share in a bin lies in (low, low + 25]; a share without a bin is not finite, at most 0 or above 100 |
| Prototype.SfBinsDifferOnlyAtZero | analysis.py:245-249 | the bins differ from the later pipeline's only at a share of exactly 0, which the later pipeline puts in the lowest bin |
| Prototype.SfCategorized | analysis.py:245-249 | every row gains the bin of its own single-family share, and every other column keeps its cells |
| Prototype.ZeroShareUncategorized | analysis.py:245-249 | an area with no single-family units gets no bin |
| Prototype.AreaFrame.constructor | analysis.py:135 | the frame holds the table |
| Prototype.AreaFrame.ClassifyUrbanSuburban | analysis.py:135-149 | the frame becomes UrbanClassified of itself |
| Prototype.AreaFrame.AssignSfCategories | analysis.py:240-249 | the frame becomes SfCategorized of itself |
| Prototype.AddMissing | analysis.py:175-179 | adding two columns is missing exactly when either side is |
| Prototype.MixPropagatesMissing | analysis.py:175-186 | each bucket is missing exactly when one of its two codes is, and a missing part or total makes the share missing |
| Prototype.SharesOfTotal | analysis.py:184-186 | two parts within a positive total give non-negative shares adding up to at most 100 |
| Prototype.MixShares | analysis.py:175-186 | for a positive total the shares are the exact single-family and multifamily sums over the total x 100, and they add up to at most 100 when the total counts every unit |
| Prototype.MixZeroTotal | analysis.py:184 | a zero total gives an infinite single-family share when there are single-family units, and a missing one when there are none |
| Prototype.AsFloats | analysis.py:169-172 | each value is the number read, or missing |
| Prototype.MixVersusCensus | analysis.py:175-180 | with both codes present the buckets agree with the census step; the prototype turns a missing code into a missing bucket where the census step counts it 0 |
| Prototype.B25024Columns | analysis.py:170 | exactly the columns whose names start with "B25024" are converted |
| Prototype.Components | analysis.py:175-181 | the eleven codes of a row, read as numbers or missing |
| Prototype.RawComponents | analysis.py:169-181 | the eleven codes of a row, converted as `to_numeric` does |
| Prototype.ConvertedLookup | analysis.py:171-172 | after the conversion loop a converted column holds each cell converted |
| Prototype.HousingCodesPrefixed | analysis.py:170 | every code the mix reads is among the converted columns |
| Prototype.CalculateHousingTypologyMix | analysis.py:152-188 | the frame becomes the converted copy, and each row's mix is computed from its converted codes |
| Prototype.UnguardedRate | analysis.py:216 | the rate is count / population x 1000 for a non-zero population; zero gives an infinity of the count's sign, or NaN for 0/0; a missing side gives NaN |
| Prototype.UnguardedVersusGuarded | analysis.py:216 | the rate equals the later guarded rate when the population is positive, and differs for a zero or negative population |
| Frames.ToNumericCell | 03_create_crosswalk.py:160 | `pd.to_numeric(errors='coerce')` on one cell gives a number or missing, keeps numbers, and keeps missing cells missing |
| Frames.ConvertToNumeric | 03_create_crosswalk.py:158-160 | the conversion loop converts exactly the named columns, cell by cell, and leaves every other cell alone |
| Numeric.Div | 04_analysis.py:175 | float division: the quotient for a non-zero divisor; x/0 is an infinity of x's sign, or NaN for 0/0; NaN on either side gives NaN |
| Numeric.FillNa | 03_create_crosswalk.py:346 | `fillna` removes NaN and keeps every other value |
| Text.SplitJoin | analysis.py:125 | joining the parts of `split` with the separator gives back the string, and no part contains the separator |
| Text.ZFillValue | 03_create_crosswalk.py:132-137 | zero-padding a digit string keeps it a digit string of the same value |
| Joins.LeftJoinKeepsLeft | 03_create_crosswalk.py:325 | a left merge keeps every left row |
| Joins.LeftJoinUnmatched | 04_analysis.py:163 | a left row whose key has no match appears with nothing beside it |
| Joins.OuterJoinCovers | 03_create_crosswalk.py:174-179 | an outer merge keeps every row of both sides |
| Joins.InnerJoinExactly | 06_nfirs_cause_analysis.py:187-191 | an inner merge holds exactly the pairs of rows with equal keys |
| Sequences.DedupUnique | 02_clean_incidents.py:200 | after `drop_duplicates` no two rows share a key |
| Sequences.DedupKeepsFirst | 02_clean_incidents.py:200 | each kept row is the first row with its key |

## Left out

- Polygon geometry is not modelled: the overlay, the reprojections, `.geometry.area` and the spatial joins are library calls. Tract areas, piece areas, response-area areas in square metres and the point-in-polygon outcome are inputs. The spatial-join branch of `join_incidents_to_response_areas` is an outcome without content.
- The statistical tests (`run_statistical_tests`, scipy) are floating point inside a library.
- The download scripts, `fetch_*`, `run_all.py`, `quick_start.py` and `05_visualize.py` are not part of this model.
- Reading and writing CSV, GeoJSON and the NFIRS text files, and all console output, are left out. Tables, file contents and directory listings are parameters.
- The NFIRS year is given with each file rather than parsed from its path.
- `create_visualizations` and the unused `HEAT_SOURCE_CATEGORIES` are not modelled.
- IEEE 754 is modelled only as far as the pipeline depends on it. Finite values are exact reals, with infinities and NaN kept as values. Signed zero, rounding and overflow are not modelled.
- Counts are reals.
- Numeric text is read as a decimal literal with an optional sign and surrounding whitespace. `float` and `pd.to_numeric` also accept exponents, "inf" and "nan"; the model reads those as missing.
- Letter case is mapped for ASCII only.
- A column is read by the first column with its name; duplicate column names are not modelled.
- In the NFIRS tables, a record is a map from field to text. An absent field stands for NaN, and records with absent key fields match each other in the merge, as pandas matches NaN keys. A module file without one of the key columns, which raises KeyError in the merge, is not modelled, and neither is a selected column that no module file has (see the five lines below).
- HousingTyped: when no module file has PROP_USE, the column is dropped by the select of the existing columns (06_nfirs_cause_analysis.py:176-184) and the script raises KeyError at 06_nfirs_cause_analysis.py:220; the model reads the absent field and labels every record "Unknown".
- CauseLabelled: when no module file has CAUSE_IGN, HEAT_SOURC or AREA_ORIG, the select at 06_nfirs_cause_analysis.py:176-184 drops it and the script raises KeyError at 06_nfirs_cause_analysis.py:233-275; the model labels every record "Unknown" for that field.
- SprinklerTagged: when no module file has AES_PRES, the select at 06_nfirs_cause_analysis.py:176-184 drops it and the script raises KeyError at 06_nfirs_cause_analysis.py:388; the model labels every record "Unknown".
- OperationTagged: when no module file has AES_OPER, the select at 06_nfirs_cause_analysis.py:176-184 drops it and the script raises KeyError at 06_nfirs_cause_analysis.py:404; the model labels every record "Unknown".
- SpreadPairs: when no module file has FIRE_SPRD, the select at 06_nfirs_cause_analysis.py:176-184 drops it and the script raises KeyError at 06_nfirs_cause_analysis.py:418; the model labels every record "Unknown".
- NaN codes in the code lookup file are not modelled.
- The `lookups` argument of `classify_cause` is not modelled, because the function never reads it.
- The row and column labels of the cross tables follow first appearance rather than pandas' sorted order. The margins of the first `crosstab` and the printed differences are left out.
- Allocate: the demographics records follow the first appearance of each response-area id in the crosswalk, while `groupby` at 03_create_crosswalk.py:339 sorts the ids. Each record's contents are as pandas computes them; only their order differs.
- Aggregate: the count rows follow the first appearance of each area id among the incidents, while `groupby` at 04_analysis.py:115 sorts the ids. The left merge that follows keeps the response areas' order, so the merged counts do not depend on it.
- TypeRows: the type-count rows follow the first appearance of each area id, while `groupby` at 04_analysis.py:403 sorts the ids. The left merge at 04_analysis.py:419-423 keeps the response areas' order.
- MergeHousing: the outer merge at 03_create_crosswalk.py:174-179 lists the population rows first, then the housing rows without a population row (Joins.OuterJoin), while pandas sorts an outer merge by GEOID. Census.TractsOf, MergeHousingCovers and MergeHousingSides state contents, not that order.
- Census.ProcessCensusData: a GEOID read from the tables themselves is compared as text. pandas compares it by value and refuses to merge a numeric GEOID with a text one; the model merges them when their texts agree.
- CellText: `astype(str)` is modelled cell by cell, not by column dtype. An integral number renders as an int64 column renders it ("123"), while a float64 column, such as an id column holding one NaN, renders "123.0". A non-integral number renders with at most six decimals, while Python uses the shortest round-trip `repr`. So text ids can match in the model where pandas' texts would not: at 04_analysis.py:58-87, 159-160, 403 and 420, and in the "48453" + `zfill` ids of 03_create_crosswalk.py:270-271.
- Whitespace: `str.strip()` and the regular expression's `\s` are modelled on ASCII whitespace only. Python also strips Unicode whitespace such as the no-break space U+00A0, which latin-1 NFIRS text can hold; the model keeps it.
- `.str` on a column whose every value is missing: pandas stores such a column as float and raises AttributeError at 02_clean_incidents.py:47, 89 and 188. The model reads those cells as missing text and carries on.
- Known: the group sums of the summaries read ±infinity as 0, while pandas `sum()` keeps an infinity (and `inf + -inf` is NaN). An infinite value reaches them only through an infinite weight, which a tract of area 0 gives (Crosswalk.Weight). The sums are exact for finite values only.
- The printed key findings other than the arson and sprinkler shares are left out.
- `analyze_time_series` and the part of `main` in `04_analysis.py` that writes outputs are not part of this model.
- The prototype `analyze_by_urban_class` (analysis.py:221-237) and the group summary of `analyze_by_housing_type` (analysis.py:251-259) are left out: their filters and sums are those of the later pipeline.
- The spatial join, counts and merges of `calculate_incidents_per_capita` (analysis.py:198-213) are left out. Only the rate formula is modelled.
- Prototype.UrbanClassified: assumes the density column holds numbers or missing values; a text density, on which Python raises TypeError, is read as missing.
- Prototype.CalculateHousingTypologyMix: the derived columns are returned as a sequence beside the converted frame rather than written into it, because their shares can be infinite.
- Prototype.IncidentFrame.ParseIncidentLocations: the geometry is a separate field, and the coordinate reference system is not modelled.
- Prototype.MixOf and Prototype.IncidentsPer1000 carry no contract of their own; the lemmas beside them (MixPropagatesMissing, MixShares, MixZeroTotal, UnguardedRate) state their behaviour.

## Findings

| source | as written | input that shows it | evidently intended | confidence | as-written member | corrected member |
|---|---|---|---|---|---|---|
| 04_analysis.py:200-203 | the number of years is read from the first merged row (`years_of_data.iloc[0]`) after a left merge that leaves it missing for areas without incidents | a first response area with no incidents: every annualised rate of every area becomes NaN | divide by the number of years in the data, which is the same for every area | high (not executed) | IncidentAnalysis.MergeIncidentsAsWritten, IncidentAnalysis.FirstAreaWithoutIncidentsLosesAnnualRates | IncidentAnalysis.MergeIncidents, IncidentAnalysis.CorrectedAnnualRates |
| 04_analysis.py:246-249 | the urban-class summary reads its number of years the same way, from the first merged area's `years_of_data` | a first response area with no incidents: every urban class's annual rates become NaN | divide by the number of years in the data | high (not executed) | IncidentSummaries.SummarizeByUrbanClassAsWritten, IncidentSummaries.FirstAreaWithoutIncidentsLosesClassAnnualRates | IncidentSummaries.SummarizeByUrbanClass, IncidentSummaries.UrbanSummaryAgreesWhenFirstMatched |
| 04_analysis.py:410-414 | other fires = size - structure - vehicle - outdoor - trash, although the keyword flags are not exclusive | one incident whose problem text names both a structure and a vehicle keyword: other fires = -1 | the number of incidents that carry none of the four flags | high (not executed) | IncidentSummaries.OtherAsWritten, IncidentSummaries.OverlappingFlagsGoNegative | IncidentSummaries.OtherFires |
| 06_nfirs_cause_analysis.py:634-635 | `mf_int_pct / sf_int_pct` is computed whenever the multifamily arson share exceeds the single-family one | no single-family arson and one multifamily arson: shares 0 and 100, and the division raises ZeroDivisionError | report the ratio only when the single-family share is positive | high (not executed) | NfirsTables.ArsonComparisonAsWritten, NfirsTables.NoSingleFamilyArsonDividesByZero | NfirsTables.ArsonComparison, NfirsTables.ArsonComparisonAgrees |
