# Genre combination analysis, modelled in Dafny

`GenreComboAnalysis.java` is a Hadoop MapReduce job over IMDb-style title
records. Each input line has `;`-separated fields: 1 is the title type, 3 the
start year, 4 the average rating and 5 the comma-separated genres.

- The mapper (`GenreMapper.map`) keeps movies rated at least 7.0 whose start
  year falls in 1991-2000, 2001-2010 or 2011-2020 (`getTimePeriod`). For each
  of the three target genre pairs in `TARGET_COMBOS` that the title carries,
  it writes the pair `("[period],G1;G2", 1)`.
- The reducer (`CountReducer.reduce`) sums the values under each key. The same
  class is registered as the combiner, so it also sums partial sums.

The project has five modules:

- `Base` (`base.dfy`): `Option` and the `(key, value)` pair the job writes.
- `JavaText` (`java_text.dfy`): the library calls `map` depends on, stated
  exactly:
  - `String.split` with the default limit, which drops trailing empty strings;
  - `String.equalsIgnoreCase`;
  - `Integer.parseInt`, with its 32-bit range;
  - `Float.parseFloat` on decimal literals, as the exact value a literal
    denotes;
  - the comparison `rating < 7.0` on the float nearest that value.
- `GenreMapper` (`genre_mapper.dfy`): `getTimePeriod`, `TARGET_COMBOS`, the
  output keys, the filter chain, and `map` itself. `OutputKeys` holds the nine
  keys of the sample output at the end of the Java file (lines 116-124), and
  lemmas tie them to the keys `map` can build. `map` has two forms:
  - `MapRecord`, a function that is its specification;
  - `Map`, a method whose loop over the combinations (`WriteMatches`) is
    proved to equal it.
- `CountReducer` (`count_reducer.dfy`): `reduce` as a method with a loop,
  proved against `Sum`. Lemmas show that the sum does not depend on the order
  or the grouping of the values, which is what makes reusing the reducer as
  the combiner sound.
- `Samples` (`samples.dfy`): what `map` does with concrete records. The id and
  title fields are left as parameters.

Two behaviours of the code are easy to misread:

- **Lines with fewer than six fields.** One might expect such lines to be
  skipped. The code has no length guard (lines 35-40), so it throws
  `ArrayIndexOutOfBoundsException`. Java's `split` drops trailing empty
  fields, so a record whose genre field is empty (`…;7.5;`) also ends up with
  five fields and throws. The model gives these lines the outcome
  `IndexOutOfBounds` instead of an empty emission.
- **A rating of `NaN`.** It passes the threshold, because `NaN < 7.0` is false
  in Java.

## Model

| member | source | states |
|---|---|---|
| GenreMapper.TimePeriod | GenreComboAnalysis.java:74-79 | a bucket is returned exactly for the years 1991..2020, and the year lies between that bucket's first and last year |
| GenreMapper.TimePeriodIsTheContainingBucket | GenreComboAnalysis.java:74-79 | every year of a bucket's range is classified into that bucket (the ranges do not overlap) |
| GenreMapper.LabelNamesItsYears | GenreComboAnalysis.java:75-77 | each period string is the decimal first year, a dash, and the decimal last year (first + 9) |
| GenreMapper.LabelsDistinct | GenreComboAnalysis.java:75-77 | the three period strings are nine characters long and pairwise distinct |
| GenreMapper.TargetCombosShape | GenreComboAnalysis.java:26-30 | TARGET_COMBOS holds three distinct pairs, (Action, Thriller), (Adventure, Drama) and (Comedy, Romance), and no first genre contains the key separator ';' |
| GenreMapper.KeyFor | GenreComboAnalysis.java:67-68 | the key is "[" at position 0, the nine-character period string at positions 1-9, "]," at positions 10-11, then "first;second" from position 12 on |
| GenreMapper.KeyForInjective | GenreComboAnalysis.java:67-68 | for genre pairs whose first genre contains no ';' (true of every target combination), two keys "[period],first;second" are equal only for the same period and the same genre pair |
| GenreMapper.KeysInVocabulary | GenreComboAnalysis.java:116-124 | every key built from a period and a target combination is one of the nine keys listed as the job's output |
| GenreMapper.OutputKeyIsBuilt | GenreComboAnalysis.java:116-124 | each of the nine listed output keys is the key of some period and some target combination |
| GenreMapper.OutputKeysAreTheBucketKeys | GenreComboAnalysis.java:116-124 | a string is one of the nine listed output keys if and only if it is the key of a period and a target combination |
| GenreMapper.NineOutputKeys | GenreComboAnalysis.java:116-124 | the nine listed output keys are pairwise distinct |
| GenreMapper.Emit | GenreComboAnalysis.java:65-70 | the loop writes no more pairs than there are combinations, and every written value is 1 (EmitDistinctKeys adds that no key is written twice) |
| GenreMapper.EmitMembership | GenreComboAnalysis.java:65-69 | a pair is written exactly when its value is 1 and its key is the key of a combination whose two genres are both in the genre set |
| GenreMapper.EmitDistinctKeys | GenreComboAnalysis.java:65-70 | distinct combinations never write the same key twice |
| GenreMapper.GenreSet | GenreComboAnalysis.java:60 | the genre set of field 5 holds only names without a comma, and a field without a comma is a set of one name |
| GenreMapper.Filter | GenreComboAnalysis.java:43-57 | a record is eligible exactly when its title type is "movie" ignoring case, its rating parses and is not below 7.0, and its year parses and lies in 1991..2020; an eligible record keeps its genre set and is placed in the bucket getTimePeriod gives |
| GenreMapper.Classify | GenreComboAnalysis.java:37-40 | fields 1, 3, 4 and 5 feed the filter: the record is rejected as not a movie exactly when field 1 is not "movie" ignoring case, and an eligible record carries the genre set of field 5 |
| GenreMapper.MapRecord | GenreComboAnalysis.java:33-71 | map throws exactly when the line splits into fewer than six fields; otherwise it writes at most three pairs, each with value 1 |
| GenreMapper.Map | GenreComboAnalysis.java:33-71 | the imperative filter chain and loop produce exactly the outcome MapRecord specifies for the line |
| GenreMapper.WriteMatches | GenreComboAnalysis.java:65-70 | the loop over TARGET_COMBOS writes exactly the pairs Emit gives, in order |
| GenreMapper.NotAMovieEmitsNothing | GenreComboAnalysis.java:43 | a title type other than "movie" (ignoring case) writes nothing, and the record is rejected before any number is parsed |
| GenreMapper.NumberFormatEmitsNothing | GenreComboAnalysis.java:47-52 | a rating or year that does not parse writes nothing |
| GenreMapper.BelowThresholdEmitsNothing | GenreComboAnalysis.java:54 | a rating below 7.0 writes nothing |
| GenreMapper.OutsidePeriodsEmitsNothing | GenreComboAnalysis.java:56-57 | a year outside the three buckets writes nothing |
| GenreMapper.EmitIffBothGenres | GenreComboAnalysis.java:65-68 | the pair of a target combination is written if and only if both of its genres are in the set, and every written pair is such a pair with value 1 |
| GenreMapper.EligibleRecordWrites | GenreComboAnalysis.java:56-70 | an eligible line is placed in the bucket of its year, and writes the pair of a target combination under that bucket's key if and only if both genre names occur verbatim among the comma-split pieces of field 5 |
| GenreMapper.EmissionsBounded | GenreComboAnalysis.java:60-70 | a record writes at most three pairs, each with value 1, under distinct keys taken from the nine output keys |
| GenreMapper.OnlyGenreSetMatters | GenreComboAnalysis.java:37-60 | the verdict depends only on fields 1, 3 and 4 and the set of genre names, so reordering or repeating genres changes nothing |
| JavaText.DropTrailingEmpty | GenreComboAnalysis.java:35 | the result is a prefix of the pieces, does not end with an empty string, and only empty strings were removed |
| JavaText.Split | GenreComboAnalysis.java:35 | without the delimiter the string is returned whole (so `Split("", d)` is `[""]`); no piece contains the delimiter; when the delimiter occurs, the result is empty or its last piece is not empty |
| JavaText.JoinPieces | GenreComboAnalysis.java:35 | joining `Pieces` (every piece between delimiters, trailing empty pieces kept) with the delimiter gives back the string |
| JavaText.PiecesOfJoin | GenreComboAnalysis.java:35 | `Pieces` (not `Split`, which drops trailing empty strings) of delimiter-free fields joined by the delimiter gives back the fields |
| JavaText.SplitOfJoin | GenreComboAnalysis.java:35 | split returns the joined fields when there are at least two and the last is not empty |
| JavaText.SplitKeepsNonEmpty | GenreComboAnalysis.java:40 | a non-empty genre name is among the split pieces exactly when it lies between delimiters (dropping trailing empties loses no name) |
| JavaText.EqualsIgnoreCase | GenreComboAnalysis.java:43 | every string equals itself ignoring case, and strings that are equal ignoring case have the same length |
| JavaText.EqualsIgnoreCaseAscii | GenreComboAnalysis.java:43 | on ASCII text, equalsIgnoreCase holds exactly when the lengths agree and the lower-cased characters agree |
| JavaText.ParseInt | GenreComboAnalysis.java:49 | an accepted year is in the 32-bit range and its text starts with a digit or a sign |
| JavaText.DecimalRoundTrip | GenreComboAnalysis.java:49 | reading back the decimal text of a natural number gives that number |
| JavaText.ParseIntOfDecimal | GenreComboAnalysis.java:49 | the decimal text of every 32-bit int, with a minus sign when negative, parses back to it |
| JavaText.ParseIntOverflow | GenreComboAnalysis.java:49-51 | a magnitude above 2^31 - 1 without a sign, or above 2^31 after a minus sign, is a NumberFormatException |
| JavaText.ParseFloat | GenreComboAnalysis.java:48 | text that is blank after trimming is a NumberFormatException |
| JavaText.TrimPrintable | GenreComboAnalysis.java:48 | text that starts and ends with a printable character is not changed by trimming |
| JavaText.FixedPointLiteral | GenreComboAnalysis.java:48 | "ddd.fff" parses to its digits scaled down by the length of its fraction |
| JavaText.LessThanSeven | GenreComboAnalysis.java:54 | NaN is never below 7.0, so it passes; every negative finite value is below 7.0; an infinity is below 7.0 exactly when it is negative |
| JavaText.AtLeastSevenPasses | GenreComboAnalysis.java:54 | every rating of at least 7 passes `rating < 7.0` |
| JavaText.BelowSevenFails | GenreComboAnalysis.java:54 | every rating below 6.9999997 fails `rating < 7.0` |
| CountReducer.Sum | GenreComboAnalysis.java:92-95 | the sum of non-negative values is non-negative, and the sum of non-positive values is non-positive |
| CountReducer.Reduce | GenreComboAnalysis.java:92-96 | exactly one pair is written, with the key unchanged and the value the sum of the values (0 for none) |
| CountReducer.SumConcat | GenreComboAnalysis.java:92-96 | the sum of a concatenation is the sum of the sums |
| CountReducer.SumPermutation | GenreComboAnalysis.java:92-96 | the sum does not depend on the order of the values |
| CountReducer.SumOfCounts | GenreComboAnalysis.java:92-96 | a sum of non-negative counts is non-negative, and a sum of ones is their number |
| CountReducer.Totals | GenreComboAnalysis.java:106 | the combiner writes one partial sum per group, each equal to that group's sum |
| CountReducer.CombinerSound | GenreComboAnalysis.java:106-107 | reducing the combiner's partial sums gives the sum of all the values |
| CountReducer.CombineAnyGrouping | GenreComboAnalysis.java:106-107 | however the values are grouped and in whatever order they arrive, combining and then reducing gives their sum |
| Samples.FieldsOfLine | GenreComboAnalysis.java:35 | a line of six `;`-free fields whose last field is not empty splits back into those six fields |
| Samples.EligibleLine | GenreComboAnalysis.java:33-71 | a well-formed line whose fields pass the filter writes the pairs of its bucket and genre set |
| Samples.RejectedLine | GenreComboAnalysis.java:43-57 | a well-formed line whose fields the filter rejects writes nothing |
| Samples.Rating70Emits | GenreComboAnalysis.java:54 | a 1995 Action/Thriller movie rated "7.0" writes ([1991-2000],Action;Thriller, 1) |
| Samples.Rating699EmitsNothing | GenreComboAnalysis.java:54 | the same movie rated "6.99" writes nothing |
| Samples.NaNRatingPasses | GenreComboAnalysis.java:48-54 | the same movie rated "NaN" passes the threshold and writes its pair |
| Samples.Year2000InFirstBucket | GenreComboAnalysis.java:75 | a movie from 2000 is counted under [1991-2000] |
| Samples.Year2001InSecondBucket | GenreComboAnalysis.java:76 | a movie from 2001 is counted under [2001-2010] |
| Samples.Year1990Dropped | GenreComboAnalysis.java:74-78 | a movie from 1990 writes nothing |
| Samples.Year2021Dropped | GenreComboAnalysis.java:74-78 | a movie from 2021 writes nothing |
| Samples.TvSeriesEmitsNothing | GenreComboAnalysis.java:43 | a "TV Series" record writes nothing, although its rating, year and genres qualify |
| Samples.TitleTypeIgnoresCase | GenreComboAnalysis.java:43 | "Movie" and "MOVIE" match "movie"; "movies" and "tvMovie" do not |
| Samples.OnlyCompletePairs | GenreComboAnalysis.java:65-68 | Action,Thriller,Comedy writes only the Action;Thriller pair, since Romance is missing |
| Samples.GenresAreCaseSensitive | GenreComboAnalysis.java:60-66 | "action,thriller" matches no target combination |
| Samples.EmptyGenreFieldThrows | GenreComboAnalysis.java:35-40 | a record with an empty genre field throws instead of being skipped |
| Samples.AdventureDrama2005 | GenreComboAnalysis.java:65-68 | a 2005 Adventure/Drama movie rated 8.0 writes ([2001-2010],Adventure;Drama, 1) |
| Samples.TwoRecordRun | GenreComboAnalysis.java:92-96 | two such records write the same key once each, and the sum of the two values they write is 2 |

## Left out

- `main` and the job configuration (GenreComboAnalysis.java:101-113) are not modelled. They are Hadoop job set-up, file paths and the process exit.
- Hadoop's `Context`, `Text` and `IntWritable` are not modelled. The pairs `map` writes are a returned sequence of (string, int) pairs, and `reduce` returns its single pair.
- The iteration order of `TARGET_COMBOS` is not modelled. It is a `HashSet` of arrays with identity hashes, so its order is unspecified. The model iterates in the order the source lists the combinations, and every property about the written pairs is stated by membership and distinctness, so it holds for any order.
- The distributed shuffle, partitioning and parallel execution are not modelled. The combiner's effect is captured by `CountReducer.CombineAnyGrouping`, which holds for any split of the values into groups and any order.
- CountReducer.Reduce: the sum uses mathematical integers. The 32-bit wrap-around of `int total` is not modelled, since it needs at least 2^31 matching records under one key.
- JavaText.ParseFloat: hexadecimal float literals (`0x1.8p1`) are not modelled. The function returns None (NumberFormatException) for them, whereas Java accepts them.
- JavaText.ParseFloat: the rounding to a float is not computed in general. It is used only through `LessThanSeven`, which compares the exact value with the midpoint between 7.0 and the float just below it, and that decides `rating < 7.0` exactly.
- JavaText.ParseInt: only ASCII digits are accepted. Java also accepts other Unicode decimal digits.
- JavaText.EqualsIgnoreCase: the case tables cover ASCII letters, U+0130 and U+0131 only. The comparison is always against the ASCII word "movie", so only those characters can matter.

Nothing in the model performs I/O. The input line is a parameter of `Map`,
and the values of a key are a parameter of `Reduce`.
