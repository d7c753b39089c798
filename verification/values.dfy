/** JavaScript values as the stores keep them in untyped records
    (`Record<string, unknown>`): only the shapes the model needs. */
module Values {

  datatype Value = Undefined | Null | Bool(b: bool) | Num(n: int) | Str(s: string)

  /** A plain object: property names to values. */
  type Record = map<string, Value>

  /** `{ ...base, ...overrides }`: every property of either, the override
      winning where both have one. */
  function Spread(base: Record, overrides: Record): (r: Record)
    ensures forall k :: k in r <==> k in base || k in overrides
    ensures forall k :: k in overrides ==> r[k] == overrides[k]
    ensures forall k :: k in base && k !in overrides ==> r[k] == base[k]
  {
    base + overrides
  }
}
