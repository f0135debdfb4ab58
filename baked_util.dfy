/** Collecting the properties of a request or response schema. */
module BakedUtil {
  import opened Wrappers
  import opened Dicts
  import opened JsonValue

  /** The three places a schema lists properties; each may be missing. */
  datatype Schema = Schema(properties: Option<Dict<Json>>, oneOf: Option<Dict<Json>>, anyOf: Option<Dict<Json>>)

  /** `k` is listed by a source that is present. */
  predicate ListedIn(source: Option<Dict<Json>>, k: string)
  {
    source.Some? && k in Keys(source.value)
  }

  /** The value a key ends up with: `anyOf` over `oneOf` over `properties`. */
  function Winner(schema: Schema, k: string): Option<Json>
  {
    if ListedIn(schema.anyOf, k) then GetLast(schema.anyOf.value, k)
    else if ListedIn(schema.oneOf, k) then GetLast(schema.oneOf.value, k)
    else if ListedIn(schema.properties, k) then GetLast(schema.properties.value, k)
    else None
  }

  /** `result.update(dict(source))` when the source is present. */
  method UpdateFrom(result: Dict<Json>, source: Option<Dict<Json>>) returns (r: Dict<Json>)
    requires DistinctKeys(result)
    ensures DistinctKeys(r)
    ensures forall k :: Get(r, k) == if ListedIn(source, k) then GetLast(source.value, k) else Get(result, k)
    ensures forall k :: k in Keys(r) <==> k in Keys(result) || ListedIn(source, k)
    ensures source.None? ==> r == result
  {
    r := result;
    if source.Some? {
      var pairs := FromPairs(source.value);
      forall k ensures (k in Keys(pairs) <==> k in Keys(source.value)) && GetLast(pairs, k) == GetLast(source.value, k) {
        FromPairsSpec(source.value, k);
      }
      UpdateKeepsDistinct(result, pairs);
      r := Update(result, pairs);
    }
  }

  /**
   * `_aggregate_schema_properties`: the union of the present sources' keys,
   * each with the value of the highest-ranked source listing it.
   */
  method AggregateSchemaProperties(schema: Schema) returns (result: Dict<Json>)
    ensures DistinctKeys(result)
    ensures forall k :: Get(result, k) == Winner(schema, k)
    ensures forall k :: k in Keys(result) <==> ListedIn(schema.properties, k) || ListedIn(schema.oneOf, k) || ListedIn(schema.anyOf, k)
    ensures schema.properties.None? && schema.oneOf.None? && schema.anyOf.None? ==> result == []
  {
    result := [];
    result := UpdateFrom(result, schema.properties);
    result := UpdateFrom(result, schema.oneOf);
    result := UpdateFrom(result, schema.anyOf);
  }
}
