/** Compute-dispatch geometry of the renderer: how many threadgroups of which
    shape are launched so that one thread lands on every texel of the
    height field. Sizes are Metal's `Int`; they are taken here as unbounded
    integers (every input the renderer passes is a small positive number). */
module Dispatch {

  /** Metal's three-component extent (MTLSize). */
  datatype MTLSize = MTLSize(width: int, height: int, depth: int)

  /** Pixel extent of the height field. */
  datatype TextureSize = TextureSize(width: nat, height: nat)

  datatype ThreadDispatchConfig = ThreadDispatchConfig(
    threadgroupsPerGrid: MTLSize,
    threadsPerThreadgroup: MTLSize)

  /** Every texel column and row is reached by some thread of the grid. */
  ghost predicate Covers(c: ThreadDispatchConfig, size: TextureSize)
  {
    c.threadgroupsPerGrid.width * c.threadsPerThreadgroup.width >= size.width &&
    c.threadgroupsPerGrid.height * c.threadsPerThreadgroup.height >= size.height
  }

  /** Dropping the last group in x or in y would leave texels uncovered:
      no group lies wholly outside the texture. */
  ghost predicate NoIdleGroup(c: ThreadDispatchConfig, size: TextureSize)
  {
    (c.threadgroupsPerGrid.width > 0 ==>
      (c.threadgroupsPerGrid.width - 1) * c.threadsPerThreadgroup.width < size.width) &&
    (c.threadgroupsPerGrid.height > 0 ==>
      (c.threadgroupsPerGrid.height - 1) * c.threadsPerThreadgroup.height < size.height)
  }

  /** Facts about the renderer's rounding-up division `(d + n - 1) / d`. */
  lemma CeilDivBounds(n: nat, d: nat)
    requires d > 0
    ensures (d + n - 1) / d >= 0
    ensures (d + n - 1) / d * d >= n
    ensures (d + n - 1) / d > 0 ==> ((d + n - 1) / d - 1) * d < n
  {
  }

  /** Number of groups of `groupSize` threads needed along one axis of
      `extent` texels: the ceiling of extent / groupSize, written as the
      renderer writes it. */
  function GroupCount(extent: nat, groupSize: nat): (q: nat)
    requires groupSize > 0
    ensures q * groupSize >= extent
    ensures q > 0 ==> (q - 1) * groupSize < extent
  {
    CeilDivBounds(extent, groupSize);
    (groupSize + extent - 1) / groupSize
  }

  /** GroupCount is the least count that covers the extent: any count of
      groups that covers it is at least as large. */
  lemma GroupCountIsLeast(extent: nat, groupSize: nat, k: nat)
    requires groupSize > 0
    requires k * groupSize >= extent
    ensures GroupCount(extent, groupSize) <= k
  {
  }

  /** Multiplying by a natural number preserves order. */
  lemma MulMonotone(a: nat, b: nat, c: nat)
    requires a <= b
    ensures a * c <= b * c
  {
    assert b * c == a * c + (b - a) * c;
  }

  /** The exact ceiling is unique: the only count that both covers the extent
      and has no idle group is GroupCount. */
  lemma GroupCountUnique(extent: nat, groupSize: nat, k: nat)
    requires groupSize > 0
    requires k * groupSize >= extent
    requires k > 0 ==> (k - 1) * groupSize < extent
    ensures k == GroupCount(extent, groupSize)
  {
    var q := GroupCount(extent, groupSize);
    GroupCountIsLeast(extent, groupSize, k);
    if q < k {
      MulMonotone(q, k - 1, groupSize);
      assert false;
    }
  }

  /** The dispatch for a compute pipeline with SIMD execution width
      `threadExecutionWidth` and at most `maxTotalThreadsPerThreadgroup`
      threads per group over a texture of `textureSize` texels: groups are
      `threadExecutionWidth` wide and as tall as the limit allows, and the
      grid is the ceiling-divided texture extent. The division by
      `threadExecutionWidth` and then by the group height needs both to be
      positive, which the requires states. */
  function GenerateThreadDispatchConfig(
    threadExecutionWidth: int,
    maxTotalThreadsPerThreadgroup: int,
    textureSize: TextureSize): (c: ThreadDispatchConfig)
    requires threadExecutionWidth > 0
    requires maxTotalThreadsPerThreadgroup >= threadExecutionWidth
    ensures c.threadsPerThreadgroup ==
      MTLSize(threadExecutionWidth, maxTotalThreadsPerThreadgroup / threadExecutionWidth, 1)
    ensures c.threadgroupsPerGrid.depth == 1
    ensures c.threadgroupsPerGrid.width >= 0 && c.threadgroupsPerGrid.height >= 0
    ensures Covers(c, textureSize) && NoIdleGroup(c, textureSize)
    ensures 0 < c.threadsPerThreadgroup.width * c.threadsPerThreadgroup.height
              <= maxTotalThreadsPerThreadgroup
  {
    var threadsPerGroup := maxTotalThreadsPerThreadgroup / threadExecutionWidth;
    ThreadDispatchConfig(
      MTLSize(GroupCount(textureSize.width, threadExecutionWidth),
              GroupCount(textureSize.height, threadsPerGroup),
              1),
      MTLSize(threadExecutionWidth, threadsPerGroup, 1))
  }

  /** The grid is the exact ceiling in both directions: the x count is
      ceil(W / Ew) and the y count ceil(H / (M / Ew)), characterised without
      division as the one count that covers the texture and has no idle group. */
  lemma DispatchGridIsCeiling(ew: int, m: int, size: TextureSize, gx: nat, gy: nat)
    requires ew > 0 && m >= ew
    requires gx * ew >= size.width && (gx > 0 ==> (gx - 1) * ew < size.width)
    requires gy * (m / ew) >= size.height && (gy > 0 ==> (gy - 1) * (m / ew) < size.height)
    ensures GenerateThreadDispatchConfig(ew, m, size).threadgroupsPerGrid == MTLSize(gx, gy, 1)
  {
    GroupCountUnique(size.width, ew, gx);
    GroupCountUnique(size.height, m / ew, gy);
  }

  /** A 3840 x 2160 field with 32-wide SIMD groups and 1024 threads per group
      is dispatched as 120 x 68 groups of 32 x 32 threads. */
  lemma UltraHdDispatch()
    ensures GenerateThreadDispatchConfig(32, 1024, TextureSize(3840, 2160)) ==
      ThreadDispatchConfig(MTLSize(120, 68, 1), MTLSize(32, 32, 1))
  {
  }
}
