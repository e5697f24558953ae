# Hexagon benchmark request logic, in Dafny

This project models the per-request computations of the two TechEmpower-style
benchmark applications of the Hexagon HTTP toolkit: the newer `com.hexagonkt`
application (`hexagon_benchmark/src/main/kotlin/Benchmark.kt`) and the older
`co.there4.hexagon` one (`benchmark/src/main/kotlin/co/there4/hexagon/Benchmark.kt`).
What they compute for each request is pure, and the model states it as functions and lemmas:

- **Query count.** The `queries` parameter goes through Kotlin's `toIntOrNull`. The result is normalised into 1..500. A missing parameter or a non-integer gives 1. The two applications write this differently: a `when` with a null case (`getWorldsCount`), or an elvis `?: 1` and then a `when` (`getQueries`). They are proved to agree on every input.
- **World projection.** Each `World(_id, id, randomNumber)` becomes a map of property names to values, and the `"_id"` key is removed. The older application emits exactly one world as an object and any other count as a list.
- **Fortunes.** The stored fortunes get the fortune `Fortune(0, "Additional fortune added at request time.")` appended. The result is then stably sorted by message. Stability is stated directly: for every message, the fortunes carrying it keep their input order. It is also proved that this property, together with sortedness, defines only one list. So any stable sort gives the same answer as the model's insertion sort, including the JVM's TimSort behind `sortedBy`.
- **Random world id.** `nextInt(WORLD_ROWS) + 1` maps a draw in [0, WORLD_ROWS) onto the ids 1..WORLD_ROWS, one draw per id.

Modules: `Wrappers` (Kotlin's nullable as `Option`), `KotlinText` (`toIntOrNull`, `Int.toString`, `String.compareTo`), `Worlds`, `Fortunes` (shared by both applications, whose data classes and fortune code are identical), `HexagonBenchmark` and `LegacyBenchmark`.

The router, its predicates and path matching give the toolkit its dispatch behaviour, but their implementation is not part of this model. The benchmark files only register routes with it.

## Model

| member | source | states |
|---|---|---|
| KotlinText.ParseUnbounded | hexagon_benchmark/src/main/kotlin/Benchmark.kt:79 | an all-digit string parses to its decimal value, `+` digits to that value and `-` digits to its negation; a result exists only for a first character that is a digit or a sign followed by digits only |
| KotlinText.ToIntOrNull | hexagon_benchmark/src/main/kotlin/Benchmark.kt:79 | `toIntOrNull` yields only 32-bit values; an empty string or a lone sign is null; a non-null result needs a digit or sign first and digits after it; digits, `+` digits and `-` digits give their value when it fits an `Int` and null otherwise |
| KotlinText.ToIntOrNullRoundTrip | hexagon_benchmark/src/main/kotlin/Benchmark.kt:79 | parsing the decimal text of any `Int` gives that `Int` back |
| KotlinText.ToIntOrNullOverflow | hexagon_benchmark/src/main/kotlin/Benchmark.kt:79 | any digit string whose value is above `Int.MAX_VALUE`, leading zeros allowed, parses to null bare or after `+`, and after `-` when its value is beyond 2^31 |
| KotlinText.LessEq | hexagon_benchmark/src/main/kotlin/Benchmark.kt:93 | `compareTo(...) <= 0` of `sortedBy { it.message }`: a prefix comes before any extension of it, and a non-empty string never precedes one whose first character is smaller |
| KotlinText.LessEqFirstDifference | benchmark/src/main/kotlin/co/there4/hexagon/Benchmark.kt:49 | at the first position where two strings differ, they are ordered exactly as their characters there |
| KotlinText.LessEqTotal | hexagon_benchmark/src/main/kotlin/Benchmark.kt:93 | the string order used by `sortedBy { it.message }` is total |
| KotlinText.LessEqAntisymmetric | hexagon_benchmark/src/main/kotlin/Benchmark.kt:93 | two strings ordered both ways are equal |
| KotlinText.LessEqTransitive | hexagon_benchmark/src/main/kotlin/Benchmark.kt:93 | the string order is transitive |
| KotlinText.LessEqReflexive | hexagon_benchmark/src/main/kotlin/Benchmark.kt:93 | every string is ordered before or equal to itself |
| Worlds.ConvertToMap | benchmark/src/main/kotlin/co/there4/hexagon/Benchmark.kt:31 | `convertToMap()` of a world has exactly three entries, `_id`, `id` and `randomNumber`, holding the world's values |
| Worlds.Project | hexagon_benchmark/src/main/kotlin/Benchmark.kt:74 | the projected map has exactly the keys `id` and `randomNumber`, carries the world's values, lacks `_id`, and agrees with the converted map on every kept key |
| Worlds.ProjectAll | hexagon_benchmark/src/main/kotlin/Benchmark.kt:73-74 | the projected list has the input's length, and position i holds the projection of world i |
| Worlds.ProjectAllAppend | hexagon_benchmark/src/main/kotlin/Benchmark.kt:74 | projecting a concatenation is concatenating the projections (order kept) |
| Worlds.ProjectForgetsOnlyStoreId | benchmark/src/main/kotlin/co/there4/hexagon/Benchmark.kt:31 | two worlds project to the same map exactly when their `id` and `randomNumber` agree, so only `_id` is dropped |
| Worlds.ProjectRestore | hexagon_benchmark/src/main/kotlin/Benchmark.kt:102 | the world is recovered from its projection plus its `_id` |
| Fortunes.Insert | hexagon_benchmark/src/main/kotlin/Benchmark.kt:93 | inserting into a sorted list keeps it sorted, adds exactly the one fortune, and puts it before the equal-message fortunes that followed it |
| Fortunes.SortByMessage | hexagon_benchmark/src/main/kotlin/Benchmark.kt:93 | `sortedBy { it.message }` returns a permutation of its input, ordered by message, in which each message's fortunes keep their input order |
| Fortunes.ListFortunes | hexagon_benchmark/src/main/kotlin/Benchmark.kt:92-93 | the page list has one more fortune than the store returned, contains the additional fortune, is a permutation of stored-plus-additional and is its stable sort by message |
| Fortunes.AdditionalAfterEqualMessages | benchmark/src/main/kotlin/co/there4/hexagon/Benchmark.kt:47-49 | among fortunes with the additional fortune's message, the stored ones come first in store order and the additional one last |
| Fortunes.StableSortUnique | hexagon_benchmark/src/main/kotlin/Benchmark.kt:93 | two lists sorted by message that agree on the order of each message's fortunes are equal |
| Fortunes.ListFortunesIsTheStableSort | benchmark/src/main/kotlin/co/there4/hexagon/Benchmark.kt:47-49 | any stable sort by message of stored-plus-additional equals the modelled list |
| HexagonBenchmark.WorldsCount | hexagon_benchmark/src/main/kotlin/Benchmark.kt:79-86 | the count is in 1..500; null and values below 1 give 1; values above 500 give 500; the parsed value is kept exactly when it is in 1..500; the count is the value of 1..500 nearest the parsed one |
| HexagonBenchmark.WorldsCountOf | hexagon_benchmark/src/main/kotlin/Benchmark.kt:79 | from the raw parameter: the count is in 1..500, and a missing or non-integer parameter gives 1 |
| HexagonBenchmark.WorldsCountIdempotent | hexagon_benchmark/src/main/kotlin/Benchmark.kt:84 | normalising a normalised count changes nothing |
| HexagonBenchmark.WorldsCountOfNumeral | hexagon_benchmark/src/main/kotlin/Benchmark.kt:79-86 | a parameter that is the decimal text of an `Int` gives that `Int` clamped to 1..500 |
| HexagonBenchmark.WorldsCountOfOverflow | hexagon_benchmark/src/main/kotlin/Benchmark.kt:79-83 | a digit string above `Int.MAX_VALUE`, bare or after `+`, leading zeros allowed, gives a count of 1 |
| HexagonBenchmark.WorldsCountOfThreeBillion | hexagon_benchmark/src/main/kotlin/Benchmark.kt:79-83 | `queries=3000000000` gives a count of 1 |
| HexagonBenchmark.WorldsCountOfUnbounded | hexagon_benchmark/src/main/kotlin/Benchmark.kt:79-86 | the corrected count is in 1..500, and a missing parameter gives 1 |
| HexagonBenchmark.WorldsCountOfUnboundedNumeral | hexagon_benchmark/src/main/kotlin/Benchmark.kt:83 | with the corrected count, every non-negative numeral gives its value clamped, and so every numeral above 500 gives 500 |
| HexagonBenchmark.WorldsCountOfAgrees | hexagon_benchmark/src/main/kotlin/Benchmark.kt:79-86 | the as-written and corrected counts agree except on numerals outside the `Int` range |
| HexagonBenchmark.DbQuery | hexagon_benchmark/src/main/kotlin/Benchmark.kt:101-105 | an empty store answer is the failure of `first()`; otherwise the result has exactly the keys `id` and `randomNumber`, with the first world's values |
| HexagonBenchmark.DbQueryIsFirstOfList | hexagon_benchmark/src/main/kotlin/Benchmark.kt:102 | the `/db` world is the first element of the projected list |
| LegacyBenchmark.GetQueries | benchmark/src/main/kotlin/co/there4/hexagon/Benchmark.kt:37-43 | the count is in 1..500; a missing or unparseable parameter gives 1; values in 1..500 are kept |
| LegacyBenchmark.GetQueriesIsWorldsCount | benchmark/src/main/kotlin/co/there4/hexagon/Benchmark.kt:37-43 | for every parsed input, `getQueries` equals the newer `getWorldsCount` |
| LegacyBenchmark.GetQueriesIdempotent | benchmark/src/main/kotlin/co/there4/hexagon/Benchmark.kt:38-42 | clamping a clamped count changes nothing |
| LegacyBenchmark.ReturnWorlds | benchmark/src/main/kotlin/co/there4/hexagon/Benchmark.kt:30-35 | the body is a single object exactly when one world was found; the worlds it carries are the projected list, in input order |
| LegacyBenchmark.RoutesAnswerSingleObject | benchmark/src/main/kotlin/co/there4/hexagon/Benchmark.kt:62-64 | if the store returns as many worlds as asked for, the answer is a single object exactly when `queries` is missing, not an integer, or at most 1 |
| LegacyBenchmark.RandomWorld | benchmark/src/main/kotlin/co/there4/hexagon/Benchmark.kt:28 | a draw in [0, WORLD_ROWS) gives an id in [1, WORLD_ROWS] |
| LegacyBenchmark.RandomWorldCoversRows | benchmark/src/main/kotlin/co/there4/hexagon/Benchmark.kt:28 | every id in 1..WORLD_ROWS is produced by exactly one draw |

## Left out

- Router, predicates and path-pattern dispatch: their implementation is not part of this model. The `router { ... }` blocks in both files only register handlers and `before` filters with it.
- Writes to the `Call`: `ok(...)`, `template(...)`, `render(...)`, `response.contentType` and `addHeader`. These are framework side effects, and the model returns the values they are given.
- The database stores (`findWorlds`, `findAllFortunes`, `findFortunes`, `replaceWorlds`): their results are parameters of the model's functions.
- Looking up `request["queries"]`: the parameter's value, if present, is an input.
- `serialize()` and JSON encoding, template rendering, and the `/plaintext` and `/json` constant answers.
- Worlds.ConvertToMap: gives the map as an unordered Dafny `map`, so the insertion order of the map keys, which decides the JSON key order, is not modelled.
- KotlinText.ToIntOrNull: accepts only ASCII digits. The JVM's `Character.digit` also accepts other Unicode decimal digits.
- KotlinText.LessEq: compares Dafny characters, which are Unicode scalar values, while Kotlin compares UTF-16 code units. The two orders differ only on strings that mix supplementary characters with characters from U+E000 to U+FFFF.
- The record fields of `World` and `Fortune` are unbounded integers. No arithmetic is done on them, so the 32-bit width does not matter.
- `ThreadLocalRandom`: the draw is a parameter. `WORLD_ROWS` is not defined in either file, so it is a parameter too.
- Server start-up and configuration: `main`, the `server` variable, `@WebListener`, engine selection, settings, the lazy store and template maps, and `httpDate(now())`. These are I/O, clock and configuration, not request logic.

## Findings

| source | as written | input that shows it | evidently intended | confidence | as-written member | corrected member |
|---|---|---|---|---|---|---|
| hexagon_benchmark/src/main/kotlin/Benchmark.kt:79-86 | a decimal `queries` value too large for a 32-bit `Int` makes `toIntOrNull` return null, so the count becomes 1 (the `getQueries` of benchmark/src/main/kotlin/co/there4/hexagon/Benchmark.kt:37-43 behaves the same) | `queries=3000000000` gives 1 (HexagonBenchmark.WorldsCountOfThreeBillion) | every integer above 500 gives 500 | medium, not executed | HexagonBenchmark.WorldsCountOf | HexagonBenchmark.WorldsCountOfUnbounded |
