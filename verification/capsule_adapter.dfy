/** UsdImagingCapsuleAdapter: subprim routing, change handling, variability
    tracking, and the points and topology handed to the renderer mesh.
    The base adapter, the mesh generator and the implicit basis are
    collaborators passed in as function-valued records. */
module CapsuleAdapter {
  import opened Wrappers
  import opened Usd
  import opened Hd
  import opened CapsuleParameters

  // ---------------------------------------------------------------------------
  // Collaborators
  // ---------------------------------------------------------------------------

  /** The gprim base adapter as the capsule adapter sees it. */
  datatype BaseAdapter = BaseAdapter(
    /** BaseAdapter::TrackVariability: the accumulator after the base adapter's own checks. */
    trackVariability: (Prim, Path, DirtyBits) -> DirtyBits,
    /** BaseAdapter::ProcessPropertyChange. */
    processPropertyChange: (Prim, Path, Token) -> DirtyBits,
    /** Whether `_IsVarying` finds the named attribute time-varying. */
    isVarying: (Prim, Token) -> bool)

  /** The inputs GeneratePoints receives besides the output position. */
  datatype PointInputs = PointInputs(
    numRadial: nat, numCapAxial: nat,
    radiusBottom: real, radiusTop: real, height: real,
    sweepDegrees: real, basis: Matrix4d)

  /** GeomUtilCapsuleMeshGenerator together with UsdImagingGprimAdapter::GetImplicitBasis. */
  datatype MeshGenerator = MeshGenerator(
    computeNumPoints: (nat, nat) -> nat,
    /** The position GeneratePoints writes at index `i` of the output array. */
    generatePoint: (nat, PointInputs) -> Vec3f,
    generateTopology: (nat, nat) -> MeshTopology,
    implicitBasis: Token -> Matrix4d)

  /** Resolution constants of the capsule adapter (declared in capsuleAdapter.h). */
  const NumRadial: nat := 10
  const NumCapAxial: nat := 4

  /** GetPoints always sweeps a full revolution. */
  const Sweep: real := 360.0

  // ---------------------------------------------------------------------------
  // Subprim routing
  // ---------------------------------------------------------------------------

  /** GetImagingSubprims: exactly one subprim, the empty token. */
  function GetImagingSubprims(prim: Prim): (r: seq<Token>)
    ensures |r| == 1 && r[0] == EmptyToken
  {
    [EmptyToken]
  }

  /** GetImagingSubprimType: the capsule prim type for the empty subprim, the empty token otherwise. */
  function GetImagingSubprimType(prim: Prim, subprim: Token): (r: Token)
    ensures subprim == EmptyToken ==> r == CapsulePrimType
    ensures subprim != EmptyToken ==> r == EmptyToken
  {
    if subprim == EmptyToken then CapsulePrimType else EmptyToken
  }

  /** GetImagingSubprimData: the prim data source built by `newPrimSource` for the
      empty subprim, null (`None`) for every other subprim without consulting it. */
  function GetImagingSubprimData<G, H(==)>(prim: Prim, subprim: Token, stageGlobals: G,
                                           newPrimSource: (Path, Prim, G) -> H): (r: Option<H>)
    ensures subprim == EmptyToken ==> r == Some(newPrimSource(prim.path, prim, stageGlobals))
    ensures subprim != EmptyToken ==> r == None
  {
    if subprim == EmptyToken then Some(newPrimSource(prim.path, prim, stageGlobals)) else None
  }

  /** InvalidateImagingSubprim: the prim data source's invalidation for the empty
      subprim, the empty locator set for every other subprim. */
  function InvalidateImagingSubprim(prim: Prim, subprim: Token, properties: seq<Token>,
                                    invalidate: (Prim, Token, seq<Token>) -> set<Locator>): (r: set<Locator>)
    ensures subprim == EmptyToken ==> r == invalidate(prim, subprim, properties)
    ensures subprim != EmptyToken ==> r == {}
  {
    if subprim == EmptyToken then invalidate(prim, subprim, properties) else {}
  }

  /** The routing functions agree: a subprim is listed exactly when it has a
      non-empty type, a non-null data source, and an invalidation that is the
      collaborator's; an unlisted subprim invalidates nothing whatever the collaborator. */
  lemma SubprimRoutingConsistent<G, H>(prim: Prim, subprim: Token, stageGlobals: G,
                                           newPrimSource: (Path, Prim, G) -> H,
                                           properties: seq<Token>,
                                           invalidate: (Prim, Token, seq<Token>) -> set<Locator>)
    ensures subprim in GetImagingSubprims(prim) <==> GetImagingSubprimType(prim, subprim) != EmptyToken
    ensures subprim in GetImagingSubprims(prim) <==> GetImagingSubprimData(prim, subprim, stageGlobals, newPrimSource).Some?
    ensures subprim !in GetImagingSubprims(prim) ==> InvalidateImagingSubprim(prim, subprim, properties, invalidate) == {}
  {
  }

  // ---------------------------------------------------------------------------
  // Change handling
  // ---------------------------------------------------------------------------

  /** The attributes whose edits and time variation the capsule adapter maps to
      DirtyPoints itself, in the order TrackVariability checks them. */
  const PointsAttributes: seq<Token> := [HeightToken, RadiusToken, AxisToken]

  /** ProcessPropertyChange: exactly DirtyPoints for `height`, `radius` and `axis`;
      every other name (`radiusBottom` and `radiusTop` included) gets the base
      adapter's answer unchanged. */
  function ProcessPropertyChange(base: BaseAdapter, prim: Prim, cachePath: Path, propertyName: Token): (r: DirtyBits)
    ensures propertyName in PointsAttributes ==> r == DirtyPoints
    ensures propertyName !in PointsAttributes ==> r == base.processPropertyChange(prim, cachePath, propertyName)
  {
    if propertyName == HeightToken || propertyName == RadiusToken || propertyName == AxisToken then
      DirtyPoints
    else
      base.processPropertyChange(prim, cachePath, propertyName)
  }

  /** A base adapter that answers Clean to every property change. */
  function CleanBase(): BaseAdapter {
    BaseAdapter((p: Prim, c: Path, b: DirtyBits) => b, (p: Prim, c: Path, n: Token) => Clean, (p: Prim, n: Token) => false)
  }

  /** A property maps to DirtyPoints whatever the base adapter does exactly when
      it is one of the attributes TrackVariability checks. */
  lemma PointsPropertiesAreTracked(prim: Prim, cachePath: Path, propertyName: Token)
    ensures (forall base: BaseAdapter :: ProcessPropertyChange(base, prim, cachePath, propertyName) == DirtyPoints)
        <==> propertyName in PointsAttributes
  {
    if propertyName !in PointsAttributes {
      assert ProcessPropertyChange(CleanBase(), prim, cachePath, propertyName) != DirtyPoints;
    }
  }

  /** The current schema's radius attributes are not handled by the capsule
      adapter: their changes get the base adapter's answer. */
  lemma SplitRadiiDeferToBase(base: BaseAdapter, prim: Prim, cachePath: Path)
    ensures ProcessPropertyChange(base, prim, cachePath, RadiusBottomToken)
         == base.processPropertyChange(prim, cachePath, RadiusBottomToken)
    ensures ProcessPropertyChange(base, prim, cachePath, RadiusTopToken)
         == base.processPropertyChange(prim, cachePath, RadiusTopToken)
  {
  }

  // ---------------------------------------------------------------------------
  // Variability tracking
  // ---------------------------------------------------------------------------

  /** The accumulated time-varying bits and the attributes `_IsVarying` was asked about, in order. */
  datatype Variability = Variability(bits: DirtyBits, queried: seq<Token>)

  /** The effect of one `_IsVarying(prim, name, DirtyPoints, ...)` call on the
      accumulator: the flag is first cleared, then set when the attribute varies. */
  function IsVaryingEffect(varying: bool, bits: DirtyBits): (r: DirtyBits)
    ensures r - DirtyPoints == bits - DirtyPoints
    ensures HasPoints(r) <==> varying
  {
    if varying then bits + DirtyPoints else bits - DirtyPoints
  }

  /** Some attribute of `names` is time-varying. */
  predicate SomeVarying(base: BaseAdapter, prim: Prim, names: seq<Token>)
    decreases |names|
  {
    |names| > 0 && (base.isVarying(prim, names[0]) || SomeVarying(base, prim, names[1..]))
  }

  /** SomeVarying holds exactly when some listed attribute varies. */
  lemma {:induction false} SomeVaryingMeansSomeIndex(base: BaseAdapter, prim: Prim, names: seq<Token>)
    ensures SomeVarying(base, prim, names) <==> exists i :: 0 <= i < |names| && base.isVarying(prim, names[i])
    decreases |names|
  {
    if |names| > 0 {
      SomeVaryingMeansSomeIndex(base, prim, names[1..]);
      if i :| 0 <= i < |names| && base.isVarying(prim, names[i]) {
        if i > 0 {
          assert names[1..][i - 1] == names[i];
        }
      }
      if j :| 0 <= j < |names[1..]| && base.isVarying(prim, names[1..][j]) {
        assert names[j + 1] == names[1..][j];
      }
    }
  }

  /** The guarded `_IsVarying` checks of `names`, in order: each runs only while
      DirtyPoints is still clear, so the checks stop at the first varying attribute. */
  function GuardedChecks(base: BaseAdapter, prim: Prim, names: seq<Token>, bits: DirtyBits): (r: Variability)
    ensures HasPoints(bits) ==> r == Variability(bits, [])
    ensures r.bits == if HasPoints(bits) || SomeVarying(base, prim, names) then bits + DirtyPoints else bits
    ensures r.queried <= names
    ensures forall i :: 0 <= i < |r.queried| - 1 ==> !base.isVarying(prim, r.queried[i])
    ensures !HasPoints(bits) && |names| > 0 ==>
      |r.queried| > 0 && (|r.queried| == |names| || base.isVarying(prim, r.queried[|r.queried| - 1]))
    decreases |names|
  {
    if |names| == 0 || HasPoints(bits) then Variability(bits, [])
    else
      var varying := base.isVarying(prim, names[0]);
      var rest := GuardedChecks(base, prim, names[1..], IsVaryingEffect(varying, bits));
      assert [names[0]] + names[1..] == names;
      Variability(rest.bits, [names[0]] + rest.queried)
  }

  /** Some attribute of PointsAttributes varies exactly when `height`, `radius` or `axis` does. */
  lemma SomePointsAttributeVaries(base: BaseAdapter, prim: Prim)
    ensures SomeVarying(base, prim, PointsAttributes)
        <==> base.isVarying(prim, HeightToken) || base.isVarying(prim, RadiusToken) || base.isVarying(prim, AxisToken)
  {
    var tail := [RadiusToken, AxisToken];
    assert PointsAttributes[1..] == tail && tail[1..] == [AxisToken] && [AxisToken][1..] == [];
    assert SomeVarying(base, prim, [AxisToken]) <==> base.isVarying(prim, AxisToken);
    assert SomeVarying(base, prim, tail) <==> base.isVarying(prim, RadiusToken) || SomeVarying(base, prim, [AxisToken]);
  }

  /** TrackVariability: the base adapter's bits, with DirtyPoints added exactly
      when the base adapter set it or `height`, `radius` or `axis` varies; once
      DirtyPoints is set no further `_IsVarying` check runs, and the checks that
      do run stop at the first varying attribute. */
  function TrackVariability(base: BaseAdapter, prim: Prim, cachePath: Path, timeVaryingBits: DirtyBits): (r: Variability)
    ensures r.bits ==
      var b := base.trackVariability(prim, cachePath, timeVaryingBits);
      if HasPoints(b) || base.isVarying(prim, HeightToken) || base.isVarying(prim, RadiusToken)
         || base.isVarying(prim, AxisToken)
      then b + DirtyPoints else b
    ensures HasPoints(base.trackVariability(prim, cachePath, timeVaryingBits)) ==> r.queried == []
    ensures r.queried <= PointsAttributes
    ensures forall i :: 0 <= i < |r.queried| - 1 ==> !base.isVarying(prim, r.queried[i])
    ensures !HasPoints(base.trackVariability(prim, cachePath, timeVaryingBits)) ==>
      |r.queried| > 0 && (|r.queried| == |PointsAttributes| || base.isVarying(prim, r.queried[|r.queried| - 1]))
  {
    var b := base.trackVariability(prim, cachePath, timeVaryingBits);
    SomePointsAttributeVaries(base, prim);
    GuardedChecks(base, prim, PointsAttributes, b)
  }

  /** TrackVariability never clears a bit the base adapter set, adds no bit but
      DirtyPoints, and sets DirtyPoints exactly when the base adapter did or a
      points attribute varies. */
  lemma TrackVariabilityOnlyAddsPoints(base: BaseAdapter, prim: Prim, cachePath: Path, timeVaryingBits: DirtyBits)
    ensures var b := base.trackVariability(prim, cachePath, timeVaryingBits);
      var r := TrackVariability(base, prim, cachePath, timeVaryingBits);
      && b <= r.bits
      && r.bits - b <= DirtyPoints
      && (HasPoints(r.bits) <==> HasPoints(b) || base.isVarying(prim, HeightToken)
                                 || base.isVarying(prim, RadiusToken) || base.isVarying(prim, AxisToken))
  {
  }

  /** The attributes a variability check would have to cover for every
      parameter GetPoints reads under either schema. */
  const AllPointsAttributes: seq<Token> := [HeightToken, RadiusToken, RadiusBottomToken, RadiusTopToken, AxisToken]

  /** Every attribute GetPoints reads under either schema is among AllPointsAttributes. */
  lemma SourceAttributeCovered(schema: Schema, f: ParamField)
    ensures exists i :: 0 <= i < |AllPointsAttributes| && AllPointsAttributes[i] == SourceAttribute(schema, f)
  {
    match f
    case HeightField => assert AllPointsAttributes[0] == SourceAttribute(schema, f);
    case AxisField => assert AllPointsAttributes[4] == SourceAttribute(schema, f);
    case RadiusBottomField =>
      if schema == Capsule { assert AllPointsAttributes[1] == SourceAttribute(schema, f); }
      else { assert AllPointsAttributes[2] == SourceAttribute(schema, f); }
    case RadiusTopField =>
      if schema == Capsule { assert AllPointsAttributes[1] == SourceAttribute(schema, f); }
      else { assert AllPointsAttributes[3] == SourceAttribute(schema, f); }
  }

  /** A current-schema capsule whose `radiusTop` follows the time code (and reads
      0.5 at the default time), with no other attribute authored. */
  function AnimatedTopCapsule(): Prim {
    Prim("/Capsule", {Capsule_1},
         (t: TimeCode) => map[RadiusTopToken := Some(DoubleValue(if t.At? then t.t else 0.5))])
  }

  /** TrackVariability as written checks only `height`, `radius` and `axis`: a
      current-schema capsule whose `radiusTop` is animated, with nothing else
      varying, is not marked as having time-varying points. */
  lemma RadiusTopVariationMissed()
    ensures var prim := AnimatedTopCapsule();
      var base := BaseAdapter((p: Prim, c: Path, b: DirtyBits) => b,
                              (p: Prim, c: Path, n: Token) => Clean,
                              (p: Prim, n: Token) => n == RadiusTopToken);
      && IsA(prim, Capsule_1)
      && GetDouble(prim.attributesAt(At(1.0)), RadiusTopToken) == Some(1.0)
      && GetDouble(prim.attributesAt(At(2.0)), RadiusTopToken) == Some(2.0)
      && base.isVarying(prim, SourceAttribute(Capsule_1, RadiusTopField))
      && !HasPoints(TrackVariability(base, prim, "/Capsule", Clean).bits)
  {
  }

  /** TrackVariability with the current schema's radius attributes checked as
      well, in the same guarded style. */
  function TrackVariabilityAllRadii(base: BaseAdapter, prim: Prim, cachePath: Path, timeVaryingBits: DirtyBits): (r: Variability)
    ensures var b := base.trackVariability(prim, cachePath, timeVaryingBits);
      && b <= r.bits
      && r.bits - b <= DirtyPoints
      && (HasPoints(r.bits) <==>
            HasPoints(b) || exists i :: 0 <= i < |AllPointsAttributes| && base.isVarying(prim, AllPointsAttributes[i]))
    ensures r.queried <= AllPointsAttributes
  {
    SomeVaryingMeansSomeIndex(base, prim, AllPointsAttributes);
    GuardedChecks(base, prim, AllPointsAttributes, base.trackVariability(prim, cachePath, timeVaryingBits))
  }

  /** With all radius attributes checked, time variation of any attribute that
      feeds a parameter of a schema the prim matches marks the points as varying. */
  lemma AllRadiiTracksEverySourceAttribute(base: BaseAdapter, prim: Prim, cachePath: Path,
                                           timeVaryingBits: DirtyBits, schema: Schema, f: ParamField)
    requires IsA(prim, schema)
    requires base.isVarying(prim, SourceAttribute(schema, f))
    ensures HasPoints(TrackVariabilityAllRadii(base, prim, cachePath, timeVaryingBits).bits)
  {
    SourceAttributeCovered(schema, f);
  }

  // ---------------------------------------------------------------------------
  // Points and topology
  // ---------------------------------------------------------------------------

  /** The point positions GetPoints returns, and the warnings it emitted. */
  datatype PointsResult = PointsResult(points: seq<Vec3f>, warnings: seq<Warning>)

  /** The generator inputs for a set of capsule parameters: the resolution
      constants, the radii and height, a full sweep, and the basis of the axis. */
  function GeneratorInputs(gen: MeshGenerator, p: CapsuleParams): PointInputs {
    PointInputs(NumRadial, NumCapAxial, p.radiusBottom, p.radiusTop, p.height, Sweep, gen.implicitBasis(p.axis))
  }

  /** GetPoints: resolves the parameters (defaults, legacy pass, current pass) and
      fills an array of ComputeNumPoints(numRadial, numCapAxial) positions from
      the generator, which gets the resolved radii, height and axis basis. */
  function GetPoints(gen: MeshGenerator, prim: Prim, time: TimeCode): (r: PointsResult)
    ensures |r.points| == gen.computeNumPoints(NumRadial, NumCapAxial)
    ensures forall i :: 0 <= i < |r.points| ==>
      r.points[i] == gen.generatePoint(i, GeneratorInputs(gen, ResolveParameters(prim, time).params))
    ensures r.warnings == ResolveParameters(prim, time).warnings
  {
    var resolved := ResolveParameters(prim, time);
    var inputs := GeneratorInputs(gen, resolved.params);
    var numPoints := gen.computeNumPoints(NumRadial, NumCapAxial);
    PointsResult(seq(numPoints, i requires 0 <= i < numPoints => gen.generatePoint(i, inputs)), resolved.warnings)
  }

  /** The number of points is the same for every prim and time. */
  lemma PointCountIndependentOfPrim(gen: MeshGenerator, prim1: Prim, time1: TimeCode, prim2: Prim, time2: TimeCode)
    ensures |GetPoints(gen, prim1, time1).points| == |GetPoints(gen, prim2, time2).points|
         == gen.computeNumPoints(NumRadial, NumCapAxial)
  {
  }

  /** Two prims (or times) whose resolved parameters agree get the same points. */
  lemma PointsDependOnlyOnParameters(gen: MeshGenerator, prim1: Prim, time1: TimeCode, prim2: Prim, time2: TimeCode)
    requires ResolveParameters(prim1, time1).params == ResolveParameters(prim2, time2).params
    ensures GetPoints(gen, prim1, time1).points == GetPoints(gen, prim2, time2).points
  {
  }

  /** Field by field, GetPoints uses the last successful read over the legacy and
      then the current pass, or the default when no matching pass read it. */
  lemma ResolvedFieldIsLastSuccessfulRead(prim: Prim, time: TimeCode, f: ParamField)
    ensures ParamValue(ResolveParameters(prim, time).params, f)
         == LastSuccessful(MatchedReads(SchemaOrder, prim, time, f), ParamValue(Defaults, f))
    ensures ResolveParameters(prim, time).warnings == Warn(prim.path, AllFailed(SchemaOrder, prim, time))
  {
    LastSuccessfulReadWins(SchemaOrder, prim, time, Extraction(Defaults, []), f);
    WarningsAreFailedReads(SchemaOrder, prim, time, Extraction(Defaults, []));
  }

  /** A prim of neither capsule schema gets the defaults and no warning. */
  lemma UnmatchedPrimUsesDefaults(prim: Prim, time: TimeCode)
    requires !IsA(prim, Capsule) && !IsA(prim, Capsule_1)
    ensures ResolveParameters(prim, time) == Extraction(Defaults, [])
  {
  }

  /** A legacy capsule whose `radius` reads R gets R for both radii. */
  lemma LegacyRadiusRoundTrip(prim: Prim, time: TimeCode, radius: real)
    requires IsA(prim, Capsule) && !IsA(prim, Capsule_1)
    requires GetDouble(prim.attributesAt(time), RadiusToken) == Some(radius)
    ensures ResolveParameters(prim, time).params.radiusBottom == radius
    ensures ResolveParameters(prim, time).params.radiusTop == radius
  {
  }

  /** A prim of both schemas: every parameter the current pass reads successfully
      overrides what the legacy pass read. */
  lemma CurrentPassWins(prim: Prim, time: TimeCode, f: ParamField)
    requires IsA(prim, Capsule_1)
    requires ReadParam(Capsule_1, f, prim.attributesAt(time)).Some?
    ensures ParamValue(ResolveParameters(prim, time).params, f) == ReadParam(Capsule_1, f, prim.attributesAt(time)).value
  {
    var afterLegacy := ExtractCapsuleParameters(Capsule, prim, time, Extraction(Defaults, []));
    assert ParamValue(ResolveParameters(prim, time).params, f)
        == ReadParam(Capsule_1, f, prim.attributesAt(time)).GetOr(ParamValue(afterLegacy.params, f));
  }

  /** The function-local static of GetTopology: the topology generated once
      from the resolution constants. */
  function SharedTopology(gen: MeshGenerator): MeshTopology {
    gen.generateTopology(NumRadial, NumCapAxial)
  }

  /** GetTopology: the shared topology, whatever the prim, cache path and time. */
  function GetTopology(gen: MeshGenerator, prim: Prim, cachePath: Path, time: TimeCode): (r: MeshTopology)
    ensures r == SharedTopology(gen)
  {
    SharedTopology(gen)
  }

  /** All capsules share one topology. */
  lemma TopologySharedByAllCapsules(gen: MeshGenerator, prim1: Prim, cachePath1: Path, time1: TimeCode,
                                    prim2: Prim, cachePath2: Path, time2: TimeCode)
    ensures GetTopology(gen, prim1, cachePath1, time1) == GetTopology(gen, prim2, cachePath2, time2)
  {
  }

  /** The generator's topology only refers to points it generates. */
  predicate TopologyFitsPoints(gen: MeshGenerator) {
    var topology := SharedTopology(gen);
    forall k :: 0 <= k < |topology.faceVertexIndices| ==>
      0 <= topology.faceVertexIndices[k] < gen.computeNumPoints(NumRadial, NumCapAxial)
  }

  /** With such a generator, every vertex index of the shared topology addresses
      a point of every capsule's points, whatever its parameters. */
  lemma TopologyIndicesAddressPoints(gen: MeshGenerator, prim: Prim, cachePath: Path, time: TimeCode)
    requires TopologyFitsPoints(gen)
    ensures forall k :: 0 <= k < |GetTopology(gen, prim, cachePath, time).faceVertexIndices| ==>
      0 <= GetTopology(gen, prim, cachePath, time).faceVertexIndices[k] < |GetPoints(gen, prim, time).points|
  {
  }
}
