/**
 * The per-request computations of the `com.hexagonkt` benchmark application:
 * the `queries` count, the single `/db` world, and (through the shared
 * modules) the world projection and the fortunes list.
 */
module HexagonBenchmark {
  import opened Wrappers
  import opened KotlinText
  import opened Worlds

  const MinQueries: int := 1
  const MaxQueries: int := 500

  function Distance(a: int, b: int): nat {
    if a <= b then b - a else a - b
  }

  /**
   * `getWorldsCount` after `toIntOrNull`: null and values below 1 give 1,
   * values above 500 give 500, anything else is kept. The result is the
   * value of the range 1..500 nearest to the parsed one.
   */
  function WorldsCount(parsed: Option<int>): (n: int)
    ensures MinQueries <= n <= MaxQueries
    ensures parsed.None? ==> n == MinQueries
    ensures parsed.Some? && parsed.value < MinQueries ==> n == MinQueries
    ensures parsed.Some? && parsed.value > MaxQueries ==> n == MaxQueries
    ensures parsed.Some? ==> (n == parsed.value <==> MinQueries <= parsed.value <= MaxQueries)
    ensures parsed.Some? ==>
      forall m :: MinQueries <= m <= MaxQueries ==> Distance(n, parsed.value) <= Distance(m, parsed.value)
  {
    match parsed
    case None => 1
    case Some(v) =>
      if v < 1 then 1
      else if v > 500 then 500
      else v
  }

  /** `request["queries"]?.toIntOrNull()` then `getWorldsCount`; `param` is the parameter's value if present. */
  function WorldsCountOf(param: Option<string>): (n: int)
    ensures MinQueries <= n <= MaxQueries
    ensures param.None? ==> n == MinQueries
    ensures param.Some? && ToIntOrNull(param.value).None? ==> n == MinQueries
  {
    WorldsCount(if param.None? then None else ToIntOrNull(param.value))
  }

  /** Normalising an already normalised count changes nothing. */
  lemma WorldsCountIdempotent(parsed: Option<int>)
    ensures WorldsCount(Some(WorldsCount(parsed))) == WorldsCount(parsed)
  {
  }

  /** A parameter written as an `Int` numeral is clamped to 1..500 like the number itself. */
  lemma WorldsCountOfNumeral(v: int)
    requires IsInt(v)
    ensures WorldsCountOf(Some(IntToString(v))) == WorldsCount(Some(v))
  {
    ToIntOrNullRoundTrip(v);
  }

  /** A numeral beyond the `Int` range, signed or with leading zeros, is not an integer to `toIntOrNull`, so it gives 1, not 500. */
  lemma WorldsCountOfOverflow(d: string)
    requires |d| >= 1 && AllDigits(d) && DigitsValue(d) > MaxInt
    ensures WorldsCountOf(Some(d)) == MinQueries
    ensures WorldsCountOf(Some("+" + d)) == MinQueries
  {
    ToIntOrNullOverflow(d);
  }

  /** `queries=3000000000` asks for more than 500 worlds and gets one. */
  lemma WorldsCountOfThreeBillion()
    ensures WorldsCountOf(Some("3000000000")) == MinQueries
  {
    var s := "3000000000";
    assert AllDigits(s);
    assert DigitsValue(s[..1]) == 3;
    assert DigitsValue(s[..2]) == 30 by { assert s[..2][..1] == s[..1]; }
    assert DigitsValue(s[..3]) == 300 by { assert s[..3][..2] == s[..2]; }
    assert DigitsValue(s[..4]) == 3000 by { assert s[..4][..3] == s[..3]; }
    assert DigitsValue(s[..5]) == 30000 by { assert s[..5][..4] == s[..4]; }
    assert DigitsValue(s[..6]) == 300000 by { assert s[..6][..5] == s[..5]; }
    assert DigitsValue(s[..7]) == 3000000 by { assert s[..7][..6] == s[..6]; }
    assert DigitsValue(s[..8]) == 30000000 by { assert s[..8][..7] == s[..7]; }
    assert DigitsValue(s[..9]) == 300000000 by { assert s[..9][..8] == s[..8]; }
    assert DigitsValue(s) == 3000000000 by { assert s[..9] == s[..|s| - 1]; }
  }

  /**
   * The count as the benchmark's range evidently means it: any decimal
   * numeral, however long, is clamped, so numerals above 500 give 500.
   */
  function WorldsCountOfUnbounded(param: Option<string>): (n: int)
    ensures MinQueries <= n <= MaxQueries
    ensures param.None? ==> n == MinQueries
  {
    WorldsCount(if param.None? then None else ParseUnbounded(param.value))
  }

  /** Every non-negative numeral gives the count its value clamped to 1..500. */
  lemma WorldsCountOfUnboundedNumeral(n: nat)
    ensures WorldsCountOfUnbounded(Some(NatToString(n))) == WorldsCount(Some(n))
    ensures n > MaxQueries ==> WorldsCountOfUnbounded(Some(NatToString(n))) == MaxQueries
  {
    NatToStringValue(n);
  }

  /** The two readings agree on every parameter that fits an `Int` or is not a numeral. */
  lemma WorldsCountOfAgrees(param: Option<string>)
    requires param.Some? ==> ToIntOrNull(param.value).Some? || ParseUnbounded(param.value).None?
    ensures WorldsCountOf(param) == WorldsCountOfUnbounded(param)
  {
  }

  /** `store.findWorlds(1).first().convertToMap() - "_id"`: `first()` fails on an empty list. */
  function DbQuery(found: seq<World>): (r: Option<map<string, int>>)
    ensures r.None? <==> found == []
    ensures r.Some? ==> r.value.Keys == {IdKey, RandomNumberKey}
    ensures r.Some? ==> r.value[IdKey] == found[0].id && r.value[RandomNumberKey] == found[0].randomNumber
  {
    if found == [] then None else Some(Project(found[0]))
  }

  /** `dbQuery` shows the first world exactly as the `/query` list shows it. */
  lemma DbQueryIsFirstOfList(found: seq<World>)
    requires found != []
    ensures DbQuery(found) == Some(ProjectAll(found)[0])
  {
  }
}
