/** The render-index side of the capsule adapter: dirty bits, mesh topology,
    point positions, data-source locators and prim-type tokens. */
module Hd {
  import opened Usd

  /** A bit position of a 32-bit mask. */
  type Bit = b: nat | b < 32

  /** HdDirtyBits, a 32-bit unsigned mask, as the set of its set bit positions:
      bitwise or is union, and clearing a flag is set difference. */
  type DirtyBits = set<Bit>

  /** HdChangeTracker::Clean. */
  const Clean: DirtyBits := {}

  /** HdChangeTracker::DirtyPoints is bit 5 (declared in hd/changeTracker.h);
      the model relies only on it being a single bit. */
  const DirtyPointsBit: Bit := 5
  const DirtyPoints: DirtyBits := {DirtyPointsBit}

  /** True when the points bit is set in `bits`. */
  predicate HasPoints(bits: DirtyBits) {
    DirtyPointsBit in bits
  }

  /** HdPrimTypeTokens->capsule. */
  const CapsulePrimType: Token := "capsule"

  /** GfVec3f; components are carried as reals. */
  datatype Vec3f = Vec3f(x: real, y: real, z: real)

  /** GfMatrix4d, row by row. */
  datatype Matrix4d = Matrix4d(rows: seq<seq<real>>)

  /** HdMeshTopology: per-face vertex counts and the flattened vertex indices. */
  datatype MeshTopology = MeshTopology(faceVertexCounts: seq<int>, faceVertexIndices: seq<int>)

  /** HdDataSourceLocator: a path of tokens into a prim's data source. */
  type Locator = seq<Token>
}
