/** Extraction of capsule parameters from a prim of either capsule schema
    (`extractRadii` for each schema and `extractCapsuleParameters<T>` in
    capsuleAdapter.cpp). Every read is best-effort: a failed read keeps the
    prior value of its field and appends a warning to the log. */
module CapsuleParameters {
  import opened Wrappers
  import opened Usd

  /** The canonical parameters handed to the mesh generator. */
  datatype CapsuleParams = CapsuleParams(height: real, radiusBottom: real, radiusTop: real, axis: Token)

  /** The values GetPoints starts from before any schema pass. */
  const Defaults: CapsuleParams := CapsuleParams(2.0, 0.5, 0.5, AxisZ)

  /** A TF_WARN diagnostic: `attribute` could not be evaluated on the prim at `primPath`. */
  datatype Warning = CouldNotEvaluate(attribute: Token, primPath: Path)

  /** Parameters under construction together with the warnings emitted so far. */
  datatype Extraction = Extraction(params: CapsuleParams, warnings: seq<Warning>)

  // ---------------------------------------------------------------------------
  // Reference description: which attribute feeds which parameter.
  // ---------------------------------------------------------------------------

  /** The four canonical parameters. */
  datatype ParamField = HeightField | RadiusBottomField | RadiusTopField | AxisField

  /** A parameter's value, as an attribute value. */
  function ParamValue(p: CapsuleParams, f: ParamField): Value {
    match f
    case HeightField => DoubleValue(p.height)
    case RadiusBottomField => DoubleValue(p.radiusBottom)
    case RadiusTopField => DoubleValue(p.radiusTop)
    case AxisField => TokenValue(p.axis)
  }

  /** The attribute a schema reads for a parameter: the legacy schema feeds both
      radii from its single `radius`. */
  function SourceAttribute(schema: Schema, f: ParamField): Token {
    match f
    case HeightField => HeightToken
    case AxisField => AxisToken
    case RadiusBottomField => if schema == Capsule then RadiusToken else RadiusBottomToken
    case RadiusTopField => if schema == Capsule then RadiusToken else RadiusTopToken
  }

  /** The attributes a schema reads, in the order it reads them. */
  function SchemaAttributes(schema: Schema): seq<Token> {
    match schema
    case Capsule => [HeightToken, RadiusToken, AxisToken]
    case Capsule_1 => [HeightToken, RadiusBottomToken, RadiusTopToken, AxisToken]
  }

  /** The radius attributes a schema reads, in order. */
  function RadiusAttributes(schema: Schema): seq<Token> {
    match schema
    case Capsule => [RadiusToken]
    case Capsule_1 => [RadiusBottomToken, RadiusTopToken]
  }

  /** The axis is token-valued; every other capsule attribute is double-valued. */
  predicate ReadFails(store: Store, name: Token) {
    if name == AxisToken then GetToken(store, name).None? else GetDouble(store, name).None?
  }

  /** The typed read that feeds parameter `f` under `schema`. */
  function ReadParam(schema: Schema, f: ParamField, store: Store): (r: Option<Value>)
    ensures r.None? <==> ReadFails(store, SourceAttribute(schema, f))
  {
    var name := SourceAttribute(schema, f);
    if f == AxisField then
      (match GetToken(store, name) case Some(t) => Some(TokenValue(t)) case None => None)
    else
      (match GetDouble(store, name) case Some(d) => Some(DoubleValue(d)) case None => None)
  }

  /** The attributes among `names` whose read fails, in order. */
  function FailedAttributes(names: seq<Token>, store: Store): (r: seq<Token>)
    ensures |r| <= |names|
  {
    if |names| == 0 then []
    else (if ReadFails(store, names[0]) then [names[0]] else []) + FailedAttributes(names[1..], store)
  }

  /** One warning per name, all about the prim at `path`. */
  function Warn(path: Path, names: seq<Token>): (r: seq<Warning>)
    ensures |r| == |names|
    ensures forall i :: 0 <= i < |r| ==> r[i] == CouldNotEvaluate(names[i], path)
  {
    seq(|names|, i requires 0 <= i < |names| => CouldNotEvaluate(names[i], path))
  }

  lemma WarnAppend(path: Path, a: seq<Token>, b: seq<Token>)
    ensures Warn(path, a + b) == Warn(path, a) + Warn(path, b)
  {
  }

  // ---------------------------------------------------------------------------
  // The reads, as capsuleAdapter.cpp performs them.
  // ---------------------------------------------------------------------------

  /** The height read shared by both schemas. */
  function ExtractHeight(path: Path, store: Store, acc: Extraction): (r: Extraction)
    ensures r.params == acc.params.(height := GetDouble(store, HeightToken).GetOr(acc.params.height))
    ensures r.warnings == acc.warnings + Warn(path, FailedAttributes([HeightToken], store))
  {
    match GetDouble(store, HeightToken)
    case Some(h) => acc.(params := acc.params.(height := h))
    case None => acc.(warnings := acc.warnings + [CouldNotEvaluate(HeightToken, path)])
  }

  /** `extractRadii` for the legacy schema: one read of `radius`, which on
      success sets both radii and on failure leaves both untouched. */
  function ExtractRadiiLegacy(path: Path, store: Store, acc: Extraction): (r: Extraction)
    ensures r.params.height == acc.params.height && r.params.axis == acc.params.axis
    ensures GetDouble(store, RadiusToken).Some? ==>
      && r.params.radiusBottom == GetDouble(store, RadiusToken).value
      && r.params.radiusTop == GetDouble(store, RadiusToken).value
      && r.warnings == acc.warnings
    ensures GetDouble(store, RadiusToken).None? ==>
      r == acc.(warnings := acc.warnings + [CouldNotEvaluate(RadiusToken, path)])
  {
    match GetDouble(store, RadiusToken)
    case Some(rad) => acc.(params := acc.params.(radiusBottom := rad, radiusTop := rad))
    case None => acc.(warnings := acc.warnings + [CouldNotEvaluate(RadiusToken, path)])
  }

  /** `extractRadii` for the current schema: two independent reads, each
      touching only its own field and warning only about itself. */
  function ExtractRadiiCurrent(path: Path, store: Store, acc: Extraction): (r: Extraction)
    ensures r.params.height == acc.params.height && r.params.axis == acc.params.axis
    ensures r.params.radiusBottom == GetDouble(store, RadiusBottomToken).GetOr(acc.params.radiusBottom)
    ensures r.params.radiusTop == GetDouble(store, RadiusTopToken).GetOr(acc.params.radiusTop)
    ensures r.warnings == acc.warnings + Warn(path, FailedAttributes([RadiusBottomToken, RadiusTopToken], store))
  {
    var afterBottom :=
      match GetDouble(store, RadiusBottomToken)
      case Some(b) => acc.(params := acc.params.(radiusBottom := b))
      case None => acc.(warnings := acc.warnings + [CouldNotEvaluate(RadiusBottomToken, path)]);
    match GetDouble(store, RadiusTopToken)
    case Some(t) => afterBottom.(params := afterBottom.params.(radiusTop := t))
    case None => afterBottom.(warnings := afterBottom.warnings + [CouldNotEvaluate(RadiusTopToken, path)])
  }

  /** The overload of `extractRadii` chosen by the schema: each radius takes its
      read under the schema's attribute table or keeps its prior value, height
      and axis are left alone, and each failed radius read is warned about, in order. */
  function ExtractRadii(schema: Schema, path: Path, store: Store, acc: Extraction): (r: Extraction)
    ensures r.params.height == acc.params.height && r.params.axis == acc.params.axis
    ensures forall f :: f == RadiusBottomField || f == RadiusTopField ==>
      ParamValue(r.params, f) == ReadParam(schema, f, store).GetOr(ParamValue(acc.params, f))
    ensures r.warnings == acc.warnings + Warn(path, FailedAttributes(RadiusAttributes(schema), store))
  {
    match schema
    case Capsule => ExtractRadiiLegacy(path, store, acc)
    case Capsule_1 => ExtractRadiiCurrent(path, store, acc)
  }

  /** The axis read shared by both schemas; any token is accepted. */
  function ExtractAxis(path: Path, store: Store, acc: Extraction): (r: Extraction)
    ensures r.params == acc.params.(axis := GetToken(store, AxisToken).GetOr(acc.params.axis))
    ensures r.warnings == acc.warnings + Warn(path, FailedAttributes([AxisToken], store))
  {
    match GetToken(store, AxisToken)
    case Some(a) => acc.(params := acc.params.(axis := a))
    case None => acc.(warnings := acc.warnings + [CouldNotEvaluate(AxisToken, path)])
  }

  /** `extractCapsuleParameters<T>`: nothing happens unless the prim is a `schema`;
      otherwise every parameter whose read succeeds takes the value read, every
      other parameter keeps its prior value, and one warning per failed read is
      appended in read order. */
  function ExtractCapsuleParameters(schema: Schema, prim: Prim, time: TimeCode, acc: Extraction): (r: Extraction)
    ensures !IsA(prim, schema) ==> r == acc
    ensures IsA(prim, schema) ==> forall f ::
      ParamValue(r.params, f) == ReadParam(schema, f, prim.attributesAt(time)).GetOr(ParamValue(acc.params, f))
    ensures IsA(prim, schema) ==>
      r.warnings == acc.warnings + Warn(prim.path, FailedAttributes(SchemaAttributes(schema), prim.attributesAt(time)))
  {
    if !IsA(prim, schema) then acc
    else
      var store := prim.attributesAt(time);
      var afterHeight := ExtractHeight(prim.path, store, acc);
      var afterRadii := ExtractRadii(schema, prim.path, store, afterHeight);
      var r := ExtractAxis(prim.path, store, afterRadii);
      PassWarningsInReadOrder(schema, prim.path, store, acc);
      r
  }

  /** The warnings of one pass are those of its failed reads, in read order. */
  lemma PassWarningsInReadOrder(schema: Schema, path: Path, store: Store, acc: Extraction)
    ensures ExtractAxis(path, store, ExtractRadii(schema, path, store, ExtractHeight(path, store, acc))).warnings
         == acc.warnings + Warn(path, FailedAttributes(SchemaAttributes(schema), store))
  {
    var afterHeight := ExtractHeight(path, store, acc);
    var afterRadii := ExtractRadii(schema, path, store, afterHeight);
    var afterAxis := ExtractAxis(path, store, afterRadii);
    var fh := FailedAttributes([HeightToken], store);
    var fr := FailedAttributes(RadiusAttributes(schema), store);
    var fa := FailedAttributes([AxisToken], store);
    assert SchemaAttributes(schema) == ([HeightToken] + RadiusAttributes(schema)) + [AxisToken];
    FailedAttributesAppend([HeightToken] + RadiusAttributes(schema), [AxisToken], store);
    FailedAttributesAppend([HeightToken], RadiusAttributes(schema), store);
    assert FailedAttributes(SchemaAttributes(schema), store) == (fh + fr) + fa;
    WarnAppend(path, fh, fr);
    WarnAppend(path, fh + fr, fa);
    assert afterAxis.warnings == acc.warnings + Warn(path, fh) + Warn(path, fr) + Warn(path, fa);
  }

  lemma {:induction false} FailedAttributesAppend(a: seq<Token>, b: seq<Token>, store: Store)
    ensures FailedAttributes(a + b, store) == FailedAttributes(a, store) + FailedAttributes(b, store)
    decreases |a|
  {
    if |a| == 0 {
      assert a + b == b;
    } else {
      assert (a + b)[1..] == a[1..] + b;
      FailedAttributesAppend(a[1..], b, store);
    }
  }

  // ---------------------------------------------------------------------------
  // Several passes in a fixed order.
  // ---------------------------------------------------------------------------

  /** The order GetPoints runs the passes in: legacy first, then current. */
  const SchemaOrder: seq<Schema> := [Capsule, Capsule_1]

  /** Runs one extraction pass per schema of `schemas`, in order. */
  function ApplyPasses(schemas: seq<Schema>, prim: Prim, time: TimeCode, acc: Extraction): Extraction
    decreases |schemas|
  {
    if |schemas| == 0 then acc
    else ExtractCapsuleParameters(schemas[|schemas| - 1], prim, time, ApplyPasses(schemas[..|schemas| - 1], prim, time, acc))
  }

  /** The parameters and warnings GetPoints works from: defaults, then the
      legacy pass, then the current pass. */
  function ResolveParameters(prim: Prim, time: TimeCode): (r: Extraction)
    ensures r == ExtractCapsuleParameters(Capsule_1, prim, time,
                   ExtractCapsuleParameters(Capsule, prim, time, Extraction(Defaults, [])))
  {
    assert SchemaOrder[..1] == [Capsule] && [Capsule][..0] == [];
    assert ApplyPasses([Capsule], prim, time, Extraction(Defaults, []))
        == ExtractCapsuleParameters(Capsule, prim, time, Extraction(Defaults, []));
    ApplyPasses(SchemaOrder, prim, time, Extraction(Defaults, []))
  }

  /** The reads of parameter `f` made by the passes of `schemas` that the prim matches, in order. */
  function MatchedReads(schemas: seq<Schema>, prim: Prim, time: TimeCode, f: ParamField): seq<Option<Value>>
    decreases |schemas|
  {
    if |schemas| == 0 then []
    else
      var s := schemas[|schemas| - 1];
      MatchedReads(schemas[..|schemas| - 1], prim, time, f)
        + (if IsA(prim, s) then [ReadParam(s, f, prim.attributesAt(time))] else [])
  }

  /** The value of the last successful read, or `prior` when every read failed. */
  function LastSuccessful(results: seq<Option<Value>>, prior: Value): Value
    decreases |results|
  {
    if |results| == 0 then prior
    else match results[|results| - 1]
      case Some(v) => v
      case None => LastSuccessful(results[..|results| - 1], prior)
  }

  /** The attributes whose reads fail across the passes the prim matches, in order. */
  function AllFailed(schemas: seq<Schema>, prim: Prim, time: TimeCode): seq<Token>
    decreases |schemas|
  {
    if |schemas| == 0 then []
    else
      var s := schemas[|schemas| - 1];
      AllFailed(schemas[..|schemas| - 1], prim, time)
        + (if IsA(prim, s) then FailedAttributes(SchemaAttributes(s), prim.attributesAt(time)) else [])
  }

  /** Field by field, after any sequence of passes a parameter holds the value
      of its last successful read among the matching schemas, or its prior value. */
  lemma {:induction false} LastSuccessfulReadWins(schemas: seq<Schema>, prim: Prim, time: TimeCode, acc: Extraction, f: ParamField)
    ensures ParamValue(ApplyPasses(schemas, prim, time, acc).params, f)
         == LastSuccessful(MatchedReads(schemas, prim, time, f), ParamValue(acc.params, f))
    decreases |schemas|
  {
    if |schemas| > 0 {
      var init := schemas[..|schemas| - 1];
      var s := schemas[|schemas| - 1];
      LastSuccessfulReadWins(init, prim, time, acc, f);
      if IsA(prim, s) {
        var read := ReadParam(s, f, prim.attributesAt(time));
        var results := MatchedReads(schemas, prim, time, f);
        assert results == MatchedReads(init, prim, time, f) + [read];
        assert results[..|results| - 1] == MatchedReads(init, prim, time, f);
        var before := ApplyPasses(init, prim, time, acc);
        assert ParamValue(ApplyPasses(schemas, prim, time, acc).params, f) == read.GetOr(ParamValue(before.params, f));
        match read
        case Some(v) =>
          assert LastSuccessful(results, ParamValue(acc.params, f)) == v;
        case None =>
          assert LastSuccessful(results, ParamValue(acc.params, f))
              == LastSuccessful(MatchedReads(init, prim, time, f), ParamValue(acc.params, f));
      } else {
        assert MatchedReads(schemas, prim, time, f) == MatchedReads(init, prim, time, f);
      }
    }
  }

  /** After any sequence of passes, the earlier warnings are kept and exactly one
      warning per failed read follows, in read order, each naming the prim. */
  lemma {:induction false} WarningsAreFailedReads(schemas: seq<Schema>, prim: Prim, time: TimeCode, acc: Extraction)
    ensures ApplyPasses(schemas, prim, time, acc).warnings
         == acc.warnings + Warn(prim.path, AllFailed(schemas, prim, time))
    decreases |schemas|
  {
    if |schemas| > 0 {
      var init := schemas[..|schemas| - 1];
      var s := schemas[|schemas| - 1];
      WarningsAreFailedReads(init, prim, time, acc);
      if IsA(prim, s) {
        WarnAppend(prim.path, AllFailed(init, prim, time),
                   FailedAttributes(SchemaAttributes(s), prim.attributesAt(time)));
      } else {
        assert AllFailed(schemas, prim, time) == AllFailed(init, prim, time);
      }
    }
  }

  /** Two parameter records that agree on every field are equal. */
  lemma ParamsExtensional(a: CapsuleParams, b: CapsuleParams)
    requires forall f :: ParamValue(a, f) == ParamValue(b, f)
    ensures a == b
  {
    assert ParamValue(a, HeightField) == ParamValue(b, HeightField);
    assert ParamValue(a, RadiusBottomField) == ParamValue(b, RadiusBottomField);
    assert ParamValue(a, RadiusTopField) == ParamValue(b, RadiusTopField);
    assert ParamValue(a, AxisField) == ParamValue(b, AxisField);
  }

  /** Running the same pass twice yields the same parameters as running it once. */
  lemma ExtractionIdempotent(schema: Schema, prim: Prim, time: TimeCode, acc: Extraction)
    ensures ExtractCapsuleParameters(schema, prim, time, ExtractCapsuleParameters(schema, prim, time, acc)).params
         == ExtractCapsuleParameters(schema, prim, time, acc).params
  {
    var once := ExtractCapsuleParameters(schema, prim, time, acc);
    var twice := ExtractCapsuleParameters(schema, prim, time, once);
    if IsA(prim, schema) {
      forall f ensures ParamValue(twice.params, f) == ParamValue(once.params, f) {
        var read := ReadParam(schema, f, prim.attributesAt(time));
        assert ParamValue(twice.params, f) == read.GetOr(ParamValue(once.params, f));
      }
      ParamsExtensional(twice.params, once.params);
    }
  }
}
