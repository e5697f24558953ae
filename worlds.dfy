/**
 * The `World` row of both benchmarks and its projection for JSON output: the
 * record is converted to a map of property names to values and the
 * store's own `_id` key is removed (`it.convertToMap() - "_id"`).
 */
module Worlds {

  /** `World(_id, id, randomNumber)`; `storeId` is the store's `_id`. */
  datatype World = World(storeId: int, id: int, randomNumber: int)

  const StoreIdKey: string := "_id"
  const IdKey: string := "id"
  const RandomNumberKey: string := "randomNumber"

  /** `convertToMap()` on a `World`: one entry per property. */
  function ConvertToMap(w: World): (m: map<string, int>)
    ensures m.Keys == {StoreIdKey, IdKey, RandomNumberKey} && |m| == 3
    ensures m[StoreIdKey] == w.storeId && m[IdKey] == w.id && m[RandomNumberKey] == w.randomNumber
  {
    map[StoreIdKey := w.storeId, IdKey := w.id, RandomNumberKey := w.randomNumber]
  }

  /** `w.convertToMap() - "_id"`. */
  function Project(w: World): (m: map<string, int>)
    ensures m.Keys == {IdKey, RandomNumberKey}
    ensures StoreIdKey !in m
    ensures m[IdKey] == w.id && m[RandomNumberKey] == w.randomNumber
    ensures forall k :: k in m ==> k in ConvertToMap(w) && m[k] == ConvertToMap(w)[k]
    ensures forall k :: k in ConvertToMap(w) && k != StoreIdKey ==> k in m
  {
    ConvertToMap(w) - {StoreIdKey}
  }

  /** `worldsList.map { it.convertToMap() - "_id" }`: one map per world, in list order. */
  function ProjectAll(ws: seq<World>): (r: seq<map<string, int>>)
    ensures |r| == |ws|
    ensures forall i :: 0 <= i < |ws| ==> r[i] == Project(ws[i])
  {
    if ws == [] then [] else [Project(ws[0])] + ProjectAll(ws[1..])
  }

  /** Projection forgets exactly the store's `_id`: two worlds project alike iff `id` and `randomNumber` agree. */
  lemma ProjectForgetsOnlyStoreId(v: World, w: World)
    ensures Project(v) == Project(w) <==> (v.id == w.id && v.randomNumber == w.randomNumber)
  {
  }

  /** The world is recovered from its projection and its `_id`. */
  lemma ProjectRestore(w: World)
    ensures World(w.storeId, Project(w)[IdKey], Project(w)[RandomNumberKey]) == w
  {
  }

  /** Projecting a list piecewise: `map` distributes over concatenation, so order is kept. */
  lemma ProjectAllAppend(a: seq<World>, b: seq<World>)
    ensures ProjectAll(a + b) == ProjectAll(a) + ProjectAll(b)
  {
  }
}
