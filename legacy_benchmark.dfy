/**
 * The per-request computations of the older `co.there4.hexagon` benchmark
 * application: `getQueries`, `returnWorlds` with its single-object-or-list
 * choice, and `randomWorld`. Its fortunes list is the one `Fortunes.ListFortunes` models.
 */
module LegacyBenchmark {
  import opened Wrappers
  import opened Worlds
  import HexagonBenchmark

  /**
   * `(request["queries"]?.toIntOrNull() ?: 1)` then clamped: below 1 gives 1,
   * above 500 gives 500, anything else is kept.
   */
  function GetQueries(parsed: Option<int>): (n: int)
    ensures 1 <= n <= 500
    ensures parsed.None? ==> n == 1
    ensures parsed.Some? && 1 <= parsed.value <= 500 ==> n == parsed.value
  {
    var v := parsed.GetOr(1);
    if v < 1 then 1
    else if v > 500 then 500
    else v
  }

  /** The elvis-then-clamp of `getQueries` and the null-case `when` of `getWorldsCount` agree on every input. */
  lemma GetQueriesIsWorldsCount(parsed: Option<int>)
    ensures GetQueries(parsed) == HexagonBenchmark.WorldsCount(parsed)
  {
  }

  /** Clamping is the identity on 1..500, hence idempotent. */
  lemma GetQueriesIdempotent(parsed: Option<int>)
    ensures GetQueries(Some(GetQueries(parsed))) == GetQueries(parsed)
  {
  }

  /** What `returnWorlds` serialises: one world as an object, or a list. */
  datatype WorldsBody = Single(world: map<string, int>) | Many(worlds: seq<map<string, int>>)

  /** The worlds a body carries, in order. */
  function Items(b: WorldsBody): seq<map<string, int>> {
    match b
    case Single(m) => [m]
    case Many(ms) => ms
  }

  /** `returnWorlds`: project every world, then emit exactly one as an object and any other count as a list. */
  function ReturnWorlds(found: seq<World>): (r: WorldsBody)
    ensures r.Single? <==> |found| == 1
    ensures Items(r) == ProjectAll(found)
  {
    var worlds := ProjectAll(found);
    if |worlds| == 1 then Single(worlds[0]) else Many(worlds)
  }

  /**
   * With a store that returns as many worlds as asked for, the `/db`,
   * `/query` and `/update` routes answer with a single object exactly when
   * `queries` is missing, not an integer, or at most 1.
   */
  lemma RoutesAnswerSingleObject(parsed: Option<int>, found: seq<World>)
    requires |found| == GetQueries(parsed)
    ensures ReturnWorlds(found).Single? <==> (parsed.None? || parsed.value <= 1)
  {
  }

  /**
   * `nextInt(WORLD_ROWS) + 1`; `draw` is the random number, which
   * `nextInt` keeps in [0, worldRows).
   */
  function RandomWorld(draw: int, worldRows: int): (id: int)
    requires 0 <= draw < worldRows
    ensures 1 <= id <= worldRows
  {
    draw + 1
  }

  /** Every world id 1..worldRows is drawn by exactly one random number. */
  lemma RandomWorldCoversRows(id: int, worldRows: int)
    requires 1 <= id <= worldRows
    ensures RandomWorld(id - 1, worldRows) == id
    ensures forall d :: 0 <= d < worldRows && RandomWorld(d, worldRows) == id ==> d == id - 1
  {
  }
}
