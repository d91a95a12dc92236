# Stephany's Astrology: a verified model of the computation layer

Stephany's Astrology is a Streamlit application with three pages: a natal chart, a
Great Trine finder and a solar revolution map. This project models the arithmetic
and combinatorics underneath those pages. That covers:

- ecliptic longitudes and zodiac signs;
- aspect detection with an orb;
- conversions between clock time and Julian days;
- the day-stepped table of planet positions;
- the Great Trine scan and its collapse of result rows into periods;
- the natal chart's coordinate, house, planet and aspect-matrix tables;
- the solar revolution's ascendant grid, its hex-to-RGBA colours and its legend.

The Swiss Ephemeris functions (`julday`, `revjul`, `calc_ut`, `houses`,
`solcross`) are function-typed parameters. `swe.difdeg2n` is defined by its
documented Swiss Ephemeris contract: `p1 - p2` normalised into [-180, 180).
All arithmetic uses exact reals and unbounded integers.

Modules, one per file:

| file | module | models |
|---|---|---|
| wrappers.dfy | Wrappers | `Option` and `Result` |
| swiss_eph.dfy | SwissEph | `degnorm`, `difdeg2n`, angular separation |
| py_numeric.dfy | PyNumeric | Python's `int()` truncation and `round()` half-to-even |
| zodiac.dfy | Zodiac | `calculate_sign`, `sign_string` |
| time_conversion.dfy | TimeConversion | `datetime_to_julday`, `julday_to_datetime` |
| aspects.dfy | Aspects | `is_aspect`, `find_aspect`, the aspect table |
| positions.dfy | Positions | `calculate_planet_positions` and the group-by-day of its table |
| great_trine.dfy | GreatTrine | pages/2_Great_Trine.py |
| natal_chart.dfy | NatalChart | pages/1_Natal_Chart.py |
| solar_revolution.dfy | SolarRevolution | pages/3_Solar_Revolution.py |

The source's loops are methods with loop invariants, each proved equal to a
specification function. The specification functions then carry the properties:

- `CalculatePlanetPositions` equals `PositionTable` over `Samples`.
- `ScanThird`, `ScanSecond` and `ScanDay` are the k, j and i loops. `ScanDays` is the loop over days. They equal `RowsOf` and `AllRows` over the triple enumeration `TrinesOf`. `TrinesOf` is proved sound, complete and strictly ordered.
- `CollapsePeriods` equals `Collapse`. Its period count, boundaries and keys are proved as lemmas.
- `AspectMatrix` fills an `array2` and ends equal to `Cell`, strictly lower-triangular.
- `AscendantGrid` equals `Grid`. `Legend` equals `Column` of the zipped colours and names.

Behaviour of the code that a reader might not expect:

- `calculate_sign` has no wrap-around: 360 gives sign 12 (`Zodiac.CalculateSignAt360`).
- `julday_to_datetime` truncates minutes and seconds and never rounds (`TimeConversion.Breakdown`).
- The seconds in `sign_string` are rounded half-to-even and can reach 60 (`Zodiac.SignDmsSixtySeconds`).
- The Great Trine collapse breaks a run only when the key changes between consecutive rows:
  - A trine absent for some days and then seen again continues the same period (`GreatTrine.CollapseBridgesGaps`).
  - Two trines present on the same days interleave in the row stream, so each row opens a period of its own (`GreatTrine.CollapseInterleaved`).
- The aspect matrix is written only at `iloc[j, i]` with j > i. The comment beside that line speaks of both positions, but the upper triangle stays empty (`NatalChart.CellOrderFree`).
- The latitude widget accepts 90 degrees 59 minutes, a point past the pole (`NatalChart.SignedDegreesBounds`).

## Model

| member | source | states |
|---|---|---|
| SwissEph.DegNorm | utils.py:237 | the result lies in [0, 360) and differs from the input by whole turns |
| SwissEph.DifDeg2n | utils.py:237 | the signed difference lies in [-180, 180) and differs from p1 - p2 by whole turns |
| SwissEph.Separation | utils.py:237 | `abs(difdeg2n(a, b))` lies in [0, 180] |
| SwissEph.ResidueUnique | utils.py:237 | two residues of one angle that are less than a full turn apart are equal, so the difdeg2n contract fixes its value |
| SwissEph.DifDeg2nSwap | utils.py:237 | swapping the arguments negates the difference except at -180; the separation is symmetric |
| PyNumeric.Trunc | utils.py:190-192 | `int()` of a real truncates toward zero, for either sign |
| PyNumeric.RoundHalfEven | utils.py:257 | `round()` gives the nearest integer, and an exact tie goes to the even one |
| Zodiac.CalculateSign | utils.py:144-154 | s·30 <= lon < (s+1)·30, i.e. floor(lon/30); on [0, 360) the sign is in 0..11 |
| Zodiac.CalculateSignMonotone | utils.py:154 | a larger longitude never has a smaller sign index |
| Zodiac.CalculateSignAt360 | utils.py:154 | longitude 360 gives sign 12: there is no mod 12 |
| Zodiac.SignDms | utils.py:247-257 | sign as calculate_sign, degree 0..29, minute 0..59, rounded second 0..60, recomposing to within half a second of the longitude |
| Zodiac.SignDmsSixtySeconds | utils.py:254-257 | rounding can produce 60 seconds (29°59'59.75" in Aries) |
| Zodiac.NatToString | utils.py:259 | the decimal text of a number (an f-string of an int) is non-empty, made of digits, has no leading zero, and reads back as the number |
| Zodiac.SignString | utils.py:245-259 | the text exists iff the longitude is in [0, 360), where the sign lookup succeeds; it is the sign's symbol, a space, the degrees, '°', a space, the minutes, an apostrophe, a space, the rounded seconds and a double quote |
| TimeConversion.HourFraction | utils.py:174 | the intended expression: with a zero microsecond field it equals the expression as written; with in-range fields it lies in [hour, hour+1) |
| TimeConversion.HourOf | utils.py:169-174 | the hour as written: a date without clock fields has hour 0; a datetime with in-range minute, second and microsecond below 1000 lies in [hour, hour+1) |
| TimeConversion.CorrectedHourOf | utils.py:169-174 | a date has hour 0; with a zero microsecond field it equals the hour as written |
| TimeConversion.DatetimeToJulday | utils.py:156-175 | as written: the Julian-day oracle receives the calendar date and the fractional hour with microseconds divided by 3 600 000; a date-only input gets hour 0 |
| TimeConversion.CorrectedDatetimeToJulday | utils.py:156-175 | with the intended microsecond weight; equal to the conversion as written on every date and every datetime with microsecond 0 |
| TimeConversion.Breakdown | utils.py:190-192 | hours 0..23, minutes 0..59, seconds 0..59, each truncated: the clock time is at most the hour and short of it by under one second |
| TimeConversion.JuldayToDatetime | utils.py:177-195 | the date is revjul's, the clock fields are in range and are revjul's hour truncated to the second (at most that hour, short of it by under one second), and the microsecond is 0 |
| TimeConversion.BreakdownOfClock | utils.py:174-192 | breaking down h + m/60 + s/3600 plus anything below one second gives back exactly (h, m, s) |
| TimeConversion.BreakdownOfHourFraction | utils.py:174-192 | with the intended weight, breaking down the hour built from (h, m, s, µs) gives back (h, m, s) for every µs |
| TimeConversion.BreakdownOfHourFractionAsWritten | utils.py:174-192 | with the weight as written, the same holds for µs below 1000 |
| TimeConversion.JuldayRoundTrip | utils.py:156-195 | as written, for microseconds below 1000: datetime to Julian day and back returns the same date and clock time, microseconds dropped, given a revjul that undoes julday |
| TimeConversion.CorrectedJuldayRoundTrip | utils.py:156-195 | with the intended weight the round trip holds for every microsecond field |
| TimeConversion.HalfSecondAsWritten | utils.py:174 | with the source's microsecond weight, half a second becomes 0:08:20 |
| TimeConversion.HalfSecondRoundTripAsWritten | utils.py:156-195 | as written, 00:00:00.5 converted to a Julian day and back comes out as 00:08:20 |
| Aspects.IsAspect | utils.py:222-237 | the inclusive test angle - orb <= separation <= angle + orb: never holds with a negative orb or a window outside [0, 180], always holds with a window covering [0, 180], and for equal longitudes holds iff the window contains 0 |
| Aspects.IsAspectSymmetric | utils.py:222-237 | the inclusive orb test holds for (a, b) iff it holds for (b, a) |
| Aspects.AspectById | utils.py:234 | the lookup fails iff no aspect has that id; otherwise it returns a table entry with that id |
| Aspects.AspectByIdOfEntry | utils.py:234 | with unique ids, looking up an entry's id gives that entry |
| Aspects.FindAspect | utils.py:239-243 | None iff no aspect of the table holds; otherwise the id of the first aspect in table order that holds |
| Aspects.FindAspectSymmetric | utils.py:239-243 | the found aspect does not depend on the order of the two longitudes |
| Aspects.TrineOrbBoundaries | utils.py:237 | a 120° ± 8° aspect holds at 112 and 128 and fails at 111.9 and 128.1: both ends are inclusive |
| Positions.SampleCount | utils.py:210-211 | sample i is taken iff start + i·step <= end |
| Positions.Samples | utils.py:210-219 | the i-th sample time is start + i·step |
| Positions.Block | utils.py:212-218 | one row per planet in table order, with the oracle's longitude at that time |
| Positions.CalculatePlanetPositions | utils.py:197-220 | the emitted rows are the position table over the sample times while julday <= end |
| Positions.PositionTableNextSample | utils.py:219 | advancing julday by the step moves to the next sample and appends its block |
| Positions.PositionTable | utils.py:209-220 | every row's julday is one of the sample times, its planet one of the table's, and its longitude the oracle's for that planet at that time |
| Positions.PositionTableLength | utils.py:209-220 | row count = number of samples × number of planets |
| Positions.PositionTableAt | utils.py:212-218 | row t·P + p holds sample t and planet p |
| Positions.SamplesIncreasing | utils.py:210-219 | sample times strictly increase |
| Positions.PositionTableSorted | utils.py:209-220 | rows come out in non-decreasing julday order |
| Positions.AddRowKeeps | pages/2_Great_Trine.py:41 | adding a row to the day groups keeps each group one day and keeps the concatenation |
| Positions.AddRowOpens | pages/2_Great_Trine.py:41 | a row whose day differs from the last group's opens a new group |
| Positions.AddRowJoins | pages/2_Great_Trine.py:41 | a row of the last group's day joins that group |
| Positions.GroupPrefixFrame | pages/2_Great_Trine.py:41 | the groups of the first n rows depend only on those n rows |
| Positions.GroupPrefixPartition | pages/2_Great_Trine.py:41 | the groups of every prefix concatenate back to it, each group is non-empty and of one day, neighbouring groups differ in day, and the last group has the last row's day |
| Positions.GroupRunsPartition | pages/2_Great_Trine.py:41 | the day groups concatenate back to the table, each group is non-empty and of one day, and neighbouring groups differ in day |
| Positions.GroupPrefixRun | pages/2_Great_Trine.py:41 | after rows that end on another day, the first m rows of a one-day block form a single new group |
| Positions.GroupRunsAppendRun | pages/2_Great_Trine.py:41 | appending a one-day block of a new day appends exactly that group |
| Positions.GroupRunsOfTable | pages/2_Great_Trine.py:38-41 | grouping the daily position table by julday gives one group per sample day: that day's block of planets |
| GreatTrine.TrineElement | pages/2_Great_Trine.py:6-16 | the shared element iff all three signs have the same element, else "Dissociate" |
| GreatTrine.TrineElementPermutation | pages/2_Great_Trine.py:6-16 | the element does not depend on the order of the three signs |
| GreatTrine.CheckRange | pages/2_Great_Trine.py:31-35 | the scan runs iff start < end <= start + 366 days; "end not after start" iff end <= start |
| GreatTrine.KUpTo | pages/2_Great_Trine.py:58-65 | the k loop's triples keep the given i and j, have j < k below the bound, and index the day |
| GreatTrine.JRun | pages/2_Great_Trine.py:50-65 | the j loop's triples keep the given i and have start <= j < k < day length |
| GreatTrine.IRun | pages/2_Great_Trine.py:45-65 | the day's triples from i on have start <= i < j < k < day length |
| GreatTrine.TrinesOf | pages/2_Great_Trine.py:45-65 | every enumerated triple passes the trine test on all three pairs, and the enumeration is strictly ordered |
| GreatTrine.KUpToSorted | pages/2_Great_Trine.py:58-65 | the k loop's triples are in strictly increasing order |
| GreatTrine.JRunSorted | pages/2_Great_Trine.py:50-65 | the j loop's triples are in strictly increasing order |
| GreatTrine.IRunSorted | pages/2_Great_Trine.py:45-65 | the triples of one day are in strictly increasing lexicographic order |
| GreatTrine.KUpToSound | pages/2_Great_Trine.py:58-65 | every triple of the k loop has all three pairs in trine |
| GreatTrine.JRunSound | pages/2_Great_Trine.py:50-65 | every triple of the j loop has all three pairs in trine |
| GreatTrine.IRunSound | pages/2_Great_Trine.py:45-65 | every triple of the day has i < j < k and all three pairs in trine |
| GreatTrine.KUpToComplete | pages/2_Great_Trine.py:58-65 | every qualifying triple with the given i and j and k below the bound is produced |
| GreatTrine.JRunComplete | pages/2_Great_Trine.py:50-65 | every qualifying triple with the given i and j at least the start is produced |
| GreatTrine.IRunComplete | pages/2_Great_Trine.py:45-65 | every qualifying triple with i at least the start is produced |
| GreatTrine.TrinesOfCharacterised | pages/2_Great_Trine.py:45-79 | a triple is enumerated iff i < j < k and its three pairs pass the trine test; the enumeration is strictly ordered, so each triple appears once |
| GreatTrine.MkRow | pages/2_Great_Trine.py:68-79 | the row carries the day's date, the three planets with calculate_sign of their longitudes, and the element of those three signs |
| GreatTrine.RowsOfSnoc | pages/2_Great_Trine.py:70-79 | one more triple appends one more result row |
| GreatTrine.RowsOfAppend | pages/2_Great_Trine.py:70-79 | the rows of concatenated triple lists concatenate |
| GreatTrine.IRunStep | pages/2_Great_Trine.py:45-50 | one turn of the i loop contributes its j loop's triples, then the rest |
| GreatTrine.KUpToStep | pages/2_Great_Trine.py:58-65 | one turn of the k loop adds the triple (i, j, k) iff both remaining pairs pass |
| GreatTrine.KRowsStep | pages/2_Great_Trine.py:58-79 | one turn of the k loop appends the row of (i, j, k) iff both remaining pairs pass, and otherwise leaves the rows unchanged |
| GreatTrine.JRunStep | pages/2_Great_Trine.py:50-56 | one turn of the j loop adds its k loop's triples iff the first pair passes |
| GreatTrine.ScanThird | pages/2_Great_Trine.py:58-79 | the k loop with its two `continue`s appends exactly the rows of the k-run triples |
| GreatTrine.ScanSecond | pages/2_Great_Trine.py:50-79 | the j loop with its `continue` appends exactly the rows of the j-run triples |
| GreatTrine.ScanDay | pages/2_Great_Trine.py:45-79 | the nested loops over one day append exactly the rows of that day's trine triples |
| GreatTrine.DayRowsSound | pages/2_Great_Trine.py:45-79 | every row of a day comes from a qualifying triple and carries that day's date |
| GreatTrine.ScanDays | pages/2_Great_Trine.py:41-79 | the loop over day groups appends each day's rows in day order |
| GreatTrine.DayRowsDates | pages/2_Great_Trine.py:71 | all rows of a day carry that day's Julian day |
| GreatTrine.AllRowsAscending | pages/2_Great_Trine.py:41-91 | with days in increasing order, the rows are in ascending date order, so sorting by date only permutes rows within one day |
| GreatTrine.CollapsePeriods | pages/2_Great_Trine.py:93-139 | the state machine over `current` and `start` emits exactly the run-length collapse of the row stream |
| GreatTrine.CollapseUpTo | pages/2_Great_Trine.py:93-139 | the first n rows give at most n periods, and none iff n is 0 |
| GreatTrine.Collapse | pages/2_Great_Trine.py:93-139 | at most one period per row, none iff there are no rows, and the last period carries the last row's key and ends at its date |
| GreatTrine.ExtendOpen | pages/2_Great_Trine.py:106-125 | with an open period at the end, a row of its key moves its end to the row's date, and a row of another key closes it and opens a period starting and ending at that row |
| GreatTrine.ExtendAt | pages/2_Great_Trine.py:106-125 | the effect of `Extend`, position by position: a row of the current key only moves the last period's end; a new key appends a period starting and ending at that row |
| GreatTrine.CollapseCount | pages/2_Great_Trine.py:85-139 | for the first n rows: no rows iff no periods; otherwise 1 + (number of adjacent key changes) periods, the last with the last row's key and date |
| GreatTrine.CollapseFirstStart | pages/2_Great_Trine.py:106-109 | the first period of any non-empty prefix starts at the first row's date |
| GreatTrine.CollapseKeysAndElements | pages/2_Great_Trine.py:110-138 | for every prefix, adjacent periods never share a key, and each period's element is the element of its key's signs |
| GreatTrine.CollapsePrefix | pages/2_Great_Trine.py:98-125 | later rows never change earlier closed periods |
| GreatTrine.CollapseBoundaryPrefix | pages/2_Great_Trine.py:110-125 | at a key change before row b, the collapse of rows 0..b ends with row b-1's period, closed at its date, and a new period opened at row b's |
| GreatTrine.CollapseBoundary | pages/2_Great_Trine.py:110-125 | at a key change the closed period ends at the previous row's date (`index - 1`) and the new one starts at this row's |
| GreatTrine.CollapseCovers | pages/2_Great_Trine.py:98-125 | every row belongs to the period numbered by the key changes before it, whose key it carries |
| GreatTrine.CollapseTwoRuns | pages/2_Great_Trine.py:93-139 | days 2-4 of trine A then day 5 of trine B give exactly the periods 2-4 and 5-5 |
| GreatTrine.CollapseBridgesGaps | pages/2_Great_Trine.py:110 | a trine seen on days 2 and 5 only forms one period from 2 to 5 |
| GreatTrine.CollapseInterleaved | pages/2_Great_Trine.py:98-125 | two trines present on the same two days give four periods |
| GreatTrine.TrineTest | pages/2_Great_Trine.py:56-65 | the pair test is `is_aspect(·, ·, 2)` with the trine's angle and orb, and it does not depend on the order of the pair |
| GreatTrine.ScanRowsAscending | pages/2_Great_Trine.py:38-91 | the scan's rows are in ascending date order |
| GreatTrine.FindGreatTrines | pages/2_Great_Trine.py:25-139 | refused iff the range check fails, with the right reason; otherwise the periods are the collapse of the daily scan between the two Julian days, using aspect 2's angle and orb |
| NatalChart.CoordinateDecimal | pages/1_Natal_Chart.py:29-32 | deg + min/60, negated iff the direction is the negative one |
| NatalChart.LatitudeDecimal | pages/1_Natal_Chart.py:29-31 | latitude deg + min/60, negated iff 'S' |
| NatalChart.LongitudeDecimal | pages/1_Natal_Chart.py:30-32 | longitude deg + min/60, negated iff 'W' |
| NatalChart.SignedDegreesRoundTrip | pages/1_Natal_Chart.py:29-32 | degrees and minutes can be read back from the decimal, and its sign is negative iff the direction is negative and the value is non-zero |
| NatalChart.SignedDegreesBounds | utils.py:112-118 | the decimal stays within ±(max + 59/60); 90°59'N exceeds 90 |
| NatalChart.BuildHouseRows | pages/1_Natal_Chart.py:39-44 | one row per cusp in cusp order, cusp k numbered house k+1, with its sign text |
| NatalChart.RetrogradeStatus | pages/1_Natal_Chart.py:53 | the mark is set iff the longitude speed is negative |
| NatalChart.BuildPlanetRows | pages/1_Natal_Chart.py:50-66 | one row per planet in table order, with its ephemeris state, the retrograde mark iff the speed is negative, and its sign text |
| NatalChart.FindAspectInTable | pages/1_Natal_Chart.py:81-83 | a found aspect id is a key of the aspect table, so its symbol lookup succeeds |
| NatalChart.AspectSymbol | pages/1_Natal_Chart.py:81-83 | no aspect gives ''; otherwise the symbol of a table entry whose id is the found aspect |
| NatalChart.Cell | pages/1_Natal_Chart.py:75-85 | cells on and above the diagonal are ''; cell (r, c) below it is the symbol for longitudes c and r |
| NatalChart.AspectMatrix | pages/1_Natal_Chart.py:75-85 | an N×N matrix in which cell (j, i) with j > i holds the symbol of find_aspect(lon_i, lon_j), and every other cell is '' |
| NatalChart.CellOrderFree | pages/1_Natal_Chart.py:81-85 | the lower-triangle symbol is the same with the two longitudes swapped; the mirrored cell and the diagonal are '' |
| NatalChart.CellNonEmpty | pages/1_Natal_Chart.py:77-85 | with non-empty symbols, a cell is non-empty iff it is below the diagonal and some aspect holds for its pair |
| NatalChart.ThreeBodyMatrix | pages/1_Natal_Chart.py:75-85 | bodies at 0, 50 and 120 degrees with a single trine aspect fill only cell (2, 0) |
| NatalChart.ShowChart | pages/1_Natal_Chart.py:16-85 | the houses and planets come from the oracles at the birth Julian day (hour + minute/60) and the signed birth place; the matrix is N×N |
| SolarRevolution.LStrip | pages/3_Solar_Revolution.py:76 | the result is a suffix, everything removed was '#', and the result does not start with '#' |
| SolarRevolution.Slice | pages/3_Solar_Revolution.py:77 | Python's slice clamps to the string's end: its length is the clamped length and character k is s[i + k] |
| SolarRevolution.HexDigit | pages/3_Solar_Revolution.py:77 | a value exists iff the character is 0-9, a-f or A-F, and it is below 16 |
| SolarRevolution.ParsePair | pages/3_Solar_Revolution.py:77 | `int(s, 16)` succeeds iff the slice is non-empty and all hexadecimal digits; two digits give 16·high + low < 256 |
| SolarRevolution.Component | pages/3_Solar_Revolution.py:77 | the pair at offset 2x: none past the end, a single digit when one character is left, else 16·high + low iff both are hexadecimal; always below 256 |
| SolarRevolution.HexToRgba | pages/3_Solar_Revolution.py:75-78 | succeeds iff all three pairs parse; then four components, r, g, b in 0..255 equal to their pairs' values, alpha last |
| SolarRevolution.HexPair | pages/3_Solar_Revolution.py:77 | the two-digit text of a component parses back to it |
| SolarRevolution.WellFormedColorParses | pages/3_Solar_Revolution.py:75-78 | '#' and six hex digits parse, each component read from its own two digits |
| SolarRevolution.ComponentOfWellFormed | pages/3_Solar_Revolution.py:77 | component x of '#' and six hex digits is read from digits 2x+1 and 2x+2 |
| SolarRevolution.HexToRgbaRoundTrip | pages/3_Solar_Revolution.py:75-78 | writing r, g, b as `#RRGGBB` and parsing gives back [r, g, b, alpha] |
| SolarRevolution.ColorsParse | pages/3_Solar_Revolution.py:56 | each of the twelve sign colours parses; Aries' is [198, 0, 0, 120] |
| SolarRevolution.AriesColor | pages/3_Solar_Revolution.py:56 | Aries' colour converts to [198, 0, 0, 120] |
| SolarRevolution.ColorWellFormed | pages/3_Solar_Revolution.py:56 | each sign colour is '#' and six hex digits |
| SolarRevolution.GridIndex | pages/3_Solar_Revolution.py:61-62 | every grid coordinate has a latitude-major position below 133·360 |
| SolarRevolution.GridIndexInverse | pages/3_Solar_Revolution.py:61-62 | the position of a coordinate maps back to that coordinate |
| SolarRevolution.GridCoordinatesInverse | pages/3_Solar_Revolution.py:61-62 | every position below 133·360 maps to a grid coordinate whose position it is |
| SolarRevolution.PointAt | pages/3_Solar_Revolution.py:63-70 | the point's sign is calculate_sign of the ascendant there, and its colour is that sign's |
| SolarRevolution.Grid | pages/3_Solar_Revolution.py:60-71 | 133 × 360 points |
| SolarRevolution.AscendantGrid | pages/3_Solar_Revolution.py:60-71 | the nested loops build exactly the grid in latitude-major order |
| SolarRevolution.GridCovers | pages/3_Solar_Revolution.py:61-70 | every latitude -66..66 and longitude -180..179 appears at its position with its own ascendant |
| SolarRevolution.GridOrdered | pages/3_Solar_Revolution.py:61-62 | earlier points have a smaller latitude, or the same latitude and a smaller longitude |
| SolarRevolution.GridColorsParse | pages/3_Solar_Revolution.py:70-81 | every grid colour converts to RGBA |
| SolarRevolution.Zip | pages/3_Solar_Revolution.py:106 | `zip` pairs entries index by index up to the shorter list |
| SolarRevolution.ColumnAt | pages/3_Solar_Revolution.py:106-107 | column c holds items c, c+4, c+8, …, (n - c + 3) / 4 of them |
| SolarRevolution.Legend | pages/3_Solar_Revolution.py:104-108 | item i goes to column i % 4, in order |
| SolarRevolution.SignLegend | pages/3_Solar_Revolution.py:56-57 | with twelve signs, column c holds signs c, c+4 and c+8 with their colours |
| SolarRevolution.RunSolarRevolution | pages/3_Solar_Revolution.py:40-108 | the grid is taken at solcross of the birth Sun longitude from 1 January of the chosen year; every point's colour converts to RGBA; the legend has four columns |

## Left out

- Streamlit widgets, session state, warnings and table display. `load_json_file`, `initialize_session`, `birth_data` and `start_end_date` are not part of this model. The sign, planet and aspect tables arrive as parameters.
- pages/9_Settings.py and Home_Page.py are not part of this model. Their orb inputs and page text are UI only.
- The Swiss Ephemeris is left abstract. `julday`, `revjul`, `calc_ut`, `houses` and `solcross` are function-typed parameters. The date ordinal used to compare two dates is the parameter `dayNumber`.
- pandas mechanics. `groupby('julday')` is modelled as runs of equal julday, which the daily table makes the same thing (`Positions.GroupRunsOfTable`). The sort at pages/2_Great_Trine.py:91 is taken as the identity. The rows are already in date order (`GreatTrine.AllRowsAscending`), so the model keeps the scan's order within a day, as a stable sort would. pandas' default sort (quicksort) is not stable and promises only date order, so rows of one day may come out in another order, which can change where periods break.
- The display lookups of planet and sign symbols in the period table, and the conversion of period Start/End with `julday_to_datetime`. Periods keep Julian days and keys. The conversion itself is modelled as `TimeConversion.JuldayToDatetime`.
- pydeck rendering and the HTML of the legend swatches. The legend keeps (colour, sign) pairs.
- Floating-point rounding: all statements hold for exact real arithmetic only.
- GreatTrine.ScanThird: the pair test is a parameter `inTrine`. `FindGreatTrines` instantiates it with `is_aspect(·, ·, 2)` through `TrineTest`. The scan lemmas therefore hold for any pair test, and the trine's own properties are proved separately in Aspects.
- TimeConversion.JuldayRoundTrip: holds only for microsecond fields below 1000, because `datetime_to_julday` divides microseconds by 3 600 000 (see Findings). `TimeConversion.CorrectedJuldayRoundTrip` states it for every microsecond field on the corrected conversion. Every caller in the application passes microsecond 0, where the two conversions agree.
- Positions.SampleCount and Positions.CalculatePlanetPositions: require a positive step. The source loop never ends for a step of zero or less when start <= end. Its only caller passes a step of 1.
- GreatTrine.FindGreatTrines: requires the aspect table to hold id 2. The source looks it up without a fallback and raises KeyError otherwise.
- SolarRevolution.ParsePair: accepts only hexadecimal digits. Python's `int(s, 16)` also accepts a sign or surrounding whitespace, such as ' A' or '+A'. No colour of the page contains either.
- SolarRevolution.RunSolarRevolution: the birth place the page asks for is never used by its computation, so it is not a parameter.
- NatalChart.ShowChart: states the house and planet rows' cusps and ephemeris states. Their text, numbering and matrix contents are stated by `BuildHouseRows`, `BuildPlanetRows` and `AspectMatrix`.

## Findings

| source | as written | input that shows it | evidently intended | confidence | as-written member | corrected member |
|---|---|---|---|---|---|---|
| utils.py:174 | microseconds divided by 3 600 000 (milliseconds per hour) | microsecond = 500000 at 00:00:00 gives hour 5/36, which breaks down to 00:08:20 | divide by 3 600 000 000, so half a second stays under one second | not executed; every caller in the application passes microsecond 0, where both agree | TimeConversion.HalfSecondRoundTripAsWritten | TimeConversion.CorrectedJuldayRoundTrip |
