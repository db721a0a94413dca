/** The scene-description side of the capsule adapter: tokens, time codes,
    attribute values, and prims whose attributes are read at a time code.
    The attribute store is a collaborator: a prim carries, for every time code,
    a map from attribute name to what a typed read of that attribute yields
    (schema fallbacks included). */
module Usd {
  import opened Wrappers

  /** Interned strings (TfToken) and scene paths (SdfPath) are both plain strings here. */
  type Token = string
  type Path = string

  /** The empty token, `TfToken()`. */
  const EmptyToken: Token := ""

  /** Attribute names of the two capsule schemas (UsdGeomTokens). */
  const HeightToken: Token := "height"
  const RadiusToken: Token := "radius"
  const RadiusBottomToken: Token := "radiusBottom"
  const RadiusTopToken: Token := "radiusTop"
  const AxisToken: Token := "axis"

  /** The default spine axis, `UsdGeomTokens->z`. */
  const AxisZ: Token := "Z"

  /** UsdTimeCode: the default time or a numeric time. */
  datatype TimeCode = DefaultTime | At(t: real)

  /** A resolved attribute value. Doubles are carried as reals: the core
      copies them and does no arithmetic on them. */
  datatype Value = DoubleValue(d: real) | TokenValue(t: Token) | OtherValue(typeName: string)

  /** What each attribute of a prim resolves to at one time code: a missing key
      is an absent attribute, `None` an attribute without a value. */
  type Store = map<Token, Option<Value>>

  /** The two capsule schemas: `Capsule` (UsdGeomCapsule, one shared `radius`)
      and `Capsule_1` (UsdGeomCapsule_1, separate `radiusBottom` and `radiusTop`). */
  datatype Schema = Capsule | Capsule_1

  /** A prim: its path, the schemas its type satisfies, and its attributes per time code. */
  datatype Prim = Prim(path: Path, schemas: set<Schema>, attributesAt: TimeCode -> Store)

  /** `UsdPrim::IsA<T>()`. */
  predicate IsA(prim: Prim, schema: Schema) {
    schema in prim.schemas
  }

  /** The resolved value of `name`, if the attribute exists and has one. */
  function Resolve(store: Store, name: Token): Option<Value> {
    if name in store then store[name] else None
  }

  /** `UsdAttribute::Get<double>`: succeeds only on a double-valued attribute. */
  function GetDouble(store: Store, name: Token): (r: Option<real>)
    ensures r.Some? <==> Resolve(store, name).Some? && Resolve(store, name).value.DoubleValue?
    ensures r.Some? ==> Resolve(store, name) == Some(DoubleValue(r.value))
  {
    match Resolve(store, name)
    case Some(DoubleValue(d)) => Some(d)
    case _ => None
  }

  /** `UsdAttribute::Get<TfToken>`: succeeds only on a token-valued attribute. */
  function GetToken(store: Store, name: Token): (r: Option<Token>)
    ensures r.Some? <==> Resolve(store, name).Some? && Resolve(store, name).value.TokenValue?
    ensures r.Some? ==> Resolve(store, name) == Some(TokenValue(r.value))
  {
    match Resolve(store, name)
    case Some(TokenValue(t)) => Some(t)
    case _ => None
  }
}
