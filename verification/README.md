# Capsule imaging adapter — a Dafny model

This project models `UsdImagingCapsuleAdapter` from
`pxr/usdImaging/usdImaging/capsuleAdapter.cpp`. The adapter turns an authored
capsule prim into the inputs of a renderer mesh, and it decides which render state
goes stale when an attribute changes or varies over time. It supports two
capsule schemas:

- `UsdGeomCapsule`, the legacy schema, which has a single `radius`.
- `UsdGeomCapsule_1`, the current schema, which has separate `radiusBottom` and `radiusTop`.

Modules:

- `Wrappers`: `Option`, used for reads that can fail and for handles that can be null.
- `Usd`: tokens, paths, time codes, attribute values, and prims.
  - A prim carries the set of schemas it satisfies; this is how `IsA<T>` is modelled.
  - For every time code, a prim carries an attribute store. The store maps each
    attribute name to `Option<Value>`.
  - `GetDouble` and `GetToken` are the typed reads `UsdAttribute::Get<double>` and `Get<TfToken>`.
- `Hd`: dirty bits, prim-type tokens, points, matrices, mesh topology and data-source locators.
  - `HdDirtyBits` is modelled as the set of its set bit positions, so bitwise OR is set union.
  - DirtyPoints is bit 5.
- `CapsuleParameters`: the two `extractRadii` overloads and `extractCapsuleParameters<T>`.
  - Each pass is stated against an independent table (`SourceAttribute`) that says which
    attribute feeds which parameter under each schema.
  - Warnings (TF_WARN) are appended to a log, one per failed read.
  - A fold over any sequence of passes is proved to give, field by field, the value of the
    last successful read.
- `CapsuleAdapter`: subprim routing, `ProcessPropertyChange`, `TrackVariability`,
  `GetPoints` and `GetTopology`.
  - The collaborators are function-valued records: the base adapter's
    `TrackVariability`/`ProcessPropertyChange`/`_IsVarying`, the capsule mesh
    generator, `GetImplicitBasis`, and the prim data source's `New`/`Invalidate`.

Three behaviours of the code worth noting:

- `GetImagingSubprimType` returns the *capsule* prim type for the empty subprim, although
  `Populate` registers a *mesh* rprim. `Populate` is not modelled.
- `ProcessPropertyChange` maps only `height`, `radius` and `axis` to DirtyPoints.
  - `radiusBottom` and `radiusTop` get the base adapter's answer (`SplitRadiiDeferToBase`).
  - `TrackVariability` likewise checks only those three names. See Findings.
- `InvalidateImagingSubprim` does not combine per-name dirty bits. For the empty subprim it
  returns the prim data source's invalidation, and for every other subprim the empty locator set.

## Model

| member | source | states |
|---|---|---|
| CapsuleParameters.ExtractHeight | pxr/usdImaging/usdImaging/capsuleAdapter.cpp:204-207 | height takes the value read, or keeps its prior value and one height warning is appended; nothing else changes |
| CapsuleParameters.ExtractRadiiLegacy | pxr/usdImaging/usdImaging/capsuleAdapter.cpp:171-179 | a successful `radius` read sets both radii to the value read with no warning; a failed one leaves every parameter unchanged and appends exactly one radius warning; height and axis are never touched |
| CapsuleParameters.ExtractRadiiCurrent | pxr/usdImaging/usdImaging/capsuleAdapter.cpp:182-192 | bottom and top radius are read independently: each field takes its own read or keeps its prior value, each failure appends its own warning (bottom before top), height and axis are untouched |
| CapsuleParameters.ExtractRadii | pxr/usdImaging/usdImaging/capsuleAdapter.cpp:209 | the overload chosen by the schema sets each radius to its read under the schema's attribute table or keeps its prior value, leaves height and axis alone, and warns exactly about the schema's failed radius reads, in order |
| CapsuleParameters.ExtractAxis | pxr/usdImaging/usdImaging/capsuleAdapter.cpp:211-214 | the axis takes any token read, or keeps its prior value and one axis warning is appended |
| CapsuleParameters.ExtractCapsuleParameters | pxr/usdImaging/usdImaging/capsuleAdapter.cpp:194-215 | a prim that is not of the schema is left untouched with no warning; otherwise every parameter takes its read under the schema's attribute table or keeps its prior value, and exactly the failed reads are warned about, in read order |
| CapsuleParameters.PassWarningsInReadOrder | pxr/usdImaging/usdImaging/capsuleAdapter.cpp:204-214 | the warnings of one pass are one per failed attribute in the order height, radius attribute(s), axis; a failure does not stop later reads |
| CapsuleParameters.ExtractionIdempotent | pxr/usdImaging/usdImaging/capsuleAdapter.cpp:194-215 | running a pass twice yields the same parameters as running it once |
| CapsuleParameters.ResolveParameters | pxr/usdImaging/usdImaging/capsuleAdapter.cpp:226-233 | GetPoints starts from height 2.0, both radii 0.5 and axis Z, then runs the legacy pass and then the current pass |
| CapsuleParameters.LastSuccessfulReadWins | pxr/usdImaging/usdImaging/capsuleAdapter.cpp:226-233 | after any sequence of passes, each parameter holds its last successful read among the matching schemas, or its prior value |
| CapsuleParameters.WarningsAreFailedReads | pxr/usdImaging/usdImaging/capsuleAdapter.cpp:226-233 | after any sequence of passes, earlier warnings are kept and exactly one warning per failed read follows, each naming the prim's path |
| CapsuleAdapter.ResolvedFieldIsLastSuccessfulRead | pxr/usdImaging/usdImaging/capsuleAdapter.cpp:226-233 | GetPoints' parameters are, field by field, the last successful read of legacy-then-current or the default; its warnings are those of the failed reads |
| CapsuleAdapter.UnmatchedPrimUsesDefaults | pxr/usdImaging/usdImaging/capsuleAdapter.cpp:226-233 | a prim of neither schema gets exactly the defaults and no warning |
| CapsuleAdapter.LegacyRadiusRoundTrip | pxr/usdImaging/usdImaging/capsuleAdapter.cpp:171-179 | a legacy capsule whose radius reads R gets radiusBottom == radiusTop == R |
| CapsuleAdapter.CurrentPassWins | pxr/usdImaging/usdImaging/capsuleAdapter.cpp:230-233 | for a prim of both schemas, every successful current-schema read overrides the legacy pass |
| CapsuleAdapter.GetImagingSubprims | pxr/usdImaging/usdImaging/capsuleAdapter.cpp:63-67 | the subprim list has exactly one element, the empty token |
| CapsuleAdapter.GetImagingSubprimType | pxr/usdImaging/usdImaging/capsuleAdapter.cpp:69-78 | the empty subprim has the capsule type; every other subprim has the empty token |
| CapsuleAdapter.GetImagingSubprimData | pxr/usdImaging/usdImaging/capsuleAdapter.cpp:80-93 | the empty subprim gets the prim data source built for the prim's path; every other subprim gets null |
| CapsuleAdapter.InvalidateImagingSubprim | pxr/usdImaging/usdImaging/capsuleAdapter.cpp:95-106 | the empty subprim gets the data source's invalidation; every other subprim gets the empty locator set |
| CapsuleAdapter.SubprimRoutingConsistent | pxr/usdImaging/usdImaging/capsuleAdapter.cpp:63-106 | a subprim is listed iff it has a non-empty type iff it has a data source; an unlisted subprim invalidates nothing |
| CapsuleAdapter.ProcessPropertyChange | pxr/usdImaging/usdImaging/capsuleAdapter.cpp:156-169 | `height`, `radius` and `axis` give exactly DirtyPoints; every other name gives the base adapter's bits unchanged |
| CapsuleAdapter.PointsPropertiesAreTracked | pxr/usdImaging/usdImaging/capsuleAdapter.cpp:137-163 | a name maps to DirtyPoints whatever the base adapter does iff it is one of the names TrackVariability checks |
| CapsuleAdapter.SplitRadiiDeferToBase | pxr/usdImaging/usdImaging/capsuleAdapter.cpp:161-168 | `radiusBottom` and `radiusTop` changes get the base adapter's answer |
| CapsuleAdapter.IsVaryingEffect | pxr/usdImaging/usdImaging/capsuleAdapter.cpp:137-140 | one `_IsVarying` call leaves every bit except DirtyPoints alone and leaves DirtyPoints set iff the attribute varies |
| CapsuleAdapter.GuardedChecks | pxr/usdImaging/usdImaging/capsuleAdapter.cpp:134-153 | the guarded checks add DirtyPoints iff it was set or some checked attribute varies, change no other bit, query nothing when the bit is already set, and stop right after the first varying attribute |
| CapsuleAdapter.TrackVariability | pxr/usdImaging/usdImaging/capsuleAdapter.cpp:124-154 | the result is the base adapter's bits, plus DirtyPoints iff it was set or height/radius/axis varies; no check runs once DirtyPoints is set; otherwise the queried names are the prefix of height, radius, axis that ends at the first varying name, or all three |
| CapsuleAdapter.TrackVariabilityOnlyAddsPoints | pxr/usdImaging/usdImaging/capsuleAdapter.cpp:131-153 | bits the base adapter set are never cleared and no bit other than DirtyPoints is added |
| CapsuleAdapter.RadiusTopVariationMissed | pxr/usdImaging/usdImaging/capsuleAdapter.cpp:136-153 | a current-schema capsule with only `radiusTop` animated is not marked as having varying points |
| CapsuleAdapter.TrackVariabilityAllRadii | pxr/usdImaging/usdImaging/capsuleAdapter.cpp:136-153 | the same guarded checks over height, radius, radiusBottom, radiusTop and axis; only DirtyPoints may be added |
| CapsuleAdapter.AllRadiiTracksEverySourceAttribute | pxr/usdImaging/usdImaging/capsuleAdapter.cpp:136-153 | with all radii checked, variation of any attribute that feeds a parameter of a matched schema marks the points as varying |
| CapsuleAdapter.GetPoints | pxr/usdImaging/usdImaging/capsuleAdapter.cpp:219-257 | the result has ComputeNumPoints(numRadial, numCapAxial) points, each generated from the resolved radii and height, a 360-degree sweep and the basis of the resolved axis |
| CapsuleAdapter.PointCountIndependentOfPrim | pxr/usdImaging/usdImaging/capsuleAdapter.cpp:241-244 | the point count is the same for every prim and time |
| CapsuleAdapter.PointsDependOnlyOnParameters | pxr/usdImaging/usdImaging/capsuleAdapter.cpp:239-256 | prims or times whose resolved parameters agree get identical points |
| CapsuleAdapter.GetTopology | pxr/usdImaging/usdImaging/capsuleAdapter.cpp:261-274 | returns the one shared topology, the function-local static generated from numRadial and numCapAxial, whatever the prim, cache path and time (see TopologySharedByAllCapsules) |
| CapsuleAdapter.TopologySharedByAllCapsules | pxr/usdImaging/usdImaging/capsuleAdapter.cpp:268-273 | GetTopology returns the same value for every prim, cache path and time |
| CapsuleAdapter.TopologyIndicesAddressPoints | pxr/usdImaging/usdImaging/capsuleAdapter.cpp:239-271 | if the generator's topology fits its point count, every vertex index of the shared topology addresses a point of every capsule's points |

## Left out

- Point and topology arithmetic is not modelled.
  - This covers `GeomUtilCapsuleMeshGenerator::ComputeNumPoints`, `GeneratePoints` and
    `GenerateTopology`, and `UsdImagingGprimAdapter::GetImplicitBasis`.
  - Their sources are not part of this model, and the work is floating-point geometry.
  - They are fields of `MeshGenerator`. `generatePoint` is the position GeneratePoints
    writes at one index of the output array.
- The function-local static that caches the topology is a plain function of the resolution
  constants. The model does not cover its thread-safe one-time initialisation.
- `numRadial` = 10 and `numCapAxial` = 4 are declared in capsuleAdapter.h, which is not part of
  this model. No property depends on their values.
- DirtyPoints = bit 5 is declared in hd/changeTracker.h, which is not part of this model. The
  model uses only the fact that it is one bit.
- The effect of `_IsVarying` comes from primAdapter.cpp, which is not part of this model. It is
  modelled as clearing the flag and then setting it if the attribute varies.
  - Whether an attribute varies is a collaborator (`BaseAdapter.isVarying`).
  - Under the capsule adapter's guard, the clear never removes a bit.
  - The perf-counter token and the `inherited` argument are not modelled.
- Attribute resolution is not modelled: value resolution, schema fallback values and time
  interpolation all happen before the store.
  - The store already holds what a typed read at that time code returns.
  - Doubles are carried as reals, because the adapter copies them and does no arithmetic.
- The `instancerContext` argument is not modelled. TrackVariability passes it to the base adapter
  (capsuleAdapter.cpp:131-132). The base adapter's `trackVariability` collaborator is arbitrary,
  so no property depends on that argument.
- `Populate`, `IsSupported`, the TfType registration, TRACE and malloc tags, and the destructor
  are left out. They are host and index plumbing.
- `UsdImagingDataSourceImplicitsPrim::New` and `::Invalidate` are parameters. The data source
  they build is left out.

## Findings

| source | as written | input that shows it | evidently intended | confidence | as-written member | corrected member |
|---|---|---|---|---|---|---|
| pxr/usdImaging/usdImaging/capsuleAdapter.cpp:136-153 | TrackVariability checks only `height`, `radius` and `axis`, but GetPoints reads `radiusBottom` and `radiusTop` for `UsdGeomCapsule_1` prims | a `UsdGeomCapsule_1` prim whose `radiusTop` is animated while height, radius and axis are constant, and the base adapter's bits lack DirtyPoints: the result lacks DirtyPoints | DirtyPoints is set whenever an attribute that GetPoints reads for a matched schema varies | medium; not executed | CapsuleAdapter.RadiusTopVariationMissed | CapsuleAdapter.TrackVariabilityAllRadii |

`CapsuleAdapter.AllRadiiTracksEverySourceAttribute` proves the intended property of the
corrected definition. `CapsuleAdapter.TrackVariability` still models the code as written.
