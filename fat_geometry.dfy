/**
 * Sector, cluster and byte geometry of a FAT32 volume: `sectors_to_bytes`,
 * `cluster_to_bytes` and the four fields `vfat_init` derives from the boot
 * sector.
 */
module FatGeometry {
  import opened Bytes
  import opened FatBoot

  /** Byte offsets and sizes derived from the boot sector (fields of `struct vfat_data`). */
  datatype Geometry = Geometry(fatBegin: nat, fatSize: nat, clustersBegin: nat, clustersSize: nat)

  /**
   * `sectors_to_bytes`: a sector count times the sector size, in `size_t`.
   * Every caller passes a value of at most 32 bits, so the product never wraps.
   */
  function SectorsToBytes(b: BootSector, sectors: u32): (r: nat)
    ensures r < SIZE_MODULUS
  {
    MulBound(sectors, U32_MODULUS, b.bytesPerSector, 0x1_0000);
    sectors * b.bytesPerSector
  }

  /** The geometry `vfat_init` computes once the boot sector is validated. */
  function GeometryOf(b: BootSector): Geometry {
    Geometry(
      SectorsToBytes(b, b.reservedSectors),
      SectorsToBytes(b, b.fat32.sectorsPerFat),
      SectorsToBytes(b, MetadataSectors32(b)),
      SectorsToBytes(b, b.sectorsPerCluster))
  }

  /**
   * `cluster_to_bytes`: byte offset of a cluster; data clusters are numbered
   * from 2. The subtraction and the sum are `size_t`, so cluster numbers 0
   * and 1 wrap around.
   */
  function ClusterToBytes(g: Geometry, cluster: nat): (r: nat)
    requires cluster < SIZE_MODULUS
    ensures r < SIZE_MODULUS
  {
    (g.clustersBegin + (cluster - 2) * g.clustersSize) % SIZE_MODULUS
  }

  /**
   * For a volume the validator accepts, `clusters_begin` is the 32-bit
   * metadata sum in bytes, and a cluster is 512 to 32767 bytes. When that
   * sum does not wrap, the data region starts right after the reserved area
   * and the FATs.
   */
  lemma GeometryLayout(b: BootSector)
    requires BootVerdict(b) == Accepted
    ensures GeometryOf(b).clustersBegin == MetadataSectors32(b) * b.bytesPerSector
    ensures MetadataSectors(b) < U32_MODULUS ==>
      GeometryOf(b).clustersBegin == GeometryOf(b).fatBegin + b.fatCount * GeometryOf(b).fatSize
    ensures GeometryOf(b).clustersSize == b.sectorsPerCluster * b.bytesPerSector
    ensures 512 <= GeometryOf(b).clustersSize < MAX_CLUSTER_SIZE
  {
    AcceptedClusterSize(b);
    assert b.fatCount == 2;
    if MetadataSectors(b) < U32_MODULUS {
      var bps := b.bytesPerSector;
      var spf := b.fat32.sectorsPerFat;
      assert MetadataSectors32(b) == b.reservedSectors + spf * 2;
      assert (b.reservedSectors + spf * 2) * bps == b.reservedSectors * bps + 2 * (spf * bps);
    }
  }

  /**
   * For a volume the evidently intended validator accepts, the FATs end
   * where the data region begins, and the data region holds at least 65525
   * clusters inside the volume.
   */
  lemma IntendedGeometryLayout(b: BootSector)
    requires IntendedBootVerdict(b) == Accepted
    ensures GeometryOf(b).clustersBegin == GeometryOf(b).fatBegin + b.fatCount * GeometryOf(b).fatSize
    ensures GeometryOf(b).clustersBegin + MIN_NB_OF_SECTORS * GeometryOf(b).clustersSize
         <= b.totalSectors * b.bytesPerSector
  {
    IntendedAcceptedVolumeFits(b);
    GeometryLayout(b);
    var bps := b.bytesPerSector;
    var spc := b.sectorsPerCluster;
    assert MIN_NB_OF_SECTORS * (spc * bps) == (MIN_NB_OF_SECTORS * spc) * bps;
    assert (MetadataSectors(b) + MIN_NB_OF_SECTORS * spc) * bps <= b.totalSectors * bps by {
      MulMonotone(MetadataSectors(b) + MIN_NB_OF_SECTORS * spc, b.totalSectors, bps);
    }
  }

  /**
   * A volume of 2^32 - 1 sectors whose two FATs take 2^31 sectors each: the
   * metadata sum wraps to the 32 reserved sectors, the validator accepts the
   * volume, and `clusters_begin` equals `fat_begin`, so cluster 2 lies on
   * the first FAT.
   */
  const HugeFatBoot: BootSector := BootSector(
    512, 1, 32, 2, 0, 0, 0, 0xFFFF_FFFF,
    Fat32Fields(0x8000_0000, 0, 2, [0, 0, 0, 0, 0, 0, 0, 0, 0, 0, 0, 0], BOOT_SIGNATURE))

  lemma WrappedDataRegionOnFat()
    ensures BootVerdict(HugeFatBoot) == Accepted
    ensures IntendedBootVerdict(HugeFatBoot) != Accepted
    ensures GeometryOf(HugeFatBoot).clustersBegin == GeometryOf(HugeFatBoot).fatBegin
    ensures ClusterToBytes(GeometryOf(HugeFatBoot), 2) < GeometryOf(HugeFatBoot).fatBegin + GeometryOf(HugeFatBoot).fatSize
  {
    assert MetadataSectors32(HugeFatBoot) == 32;
  }

  /**
   * Cluster 2 starts the data region, each following cluster starts one
   * cluster size further on, and cluster n starts at sector
   * (32-bit metadata sum) + (n - 2) * sectors_per_cluster, a sector boundary.
   */
  lemma ClusterToBytesLayout(b: BootSector, cluster: nat)
    requires BootVerdict(b) == Accepted
    requires 2 <= cluster < U32_MODULUS
    ensures ClusterToBytes(GeometryOf(b), 2) == GeometryOf(b).clustersBegin
    ensures ClusterToBytes(GeometryOf(b), cluster + 1) == ClusterToBytes(GeometryOf(b), cluster) + GeometryOf(b).clustersSize
    ensures ClusterToBytes(GeometryOf(b), cluster)
         == (MetadataSectors32(b) + (cluster - 2) * b.sectorsPerCluster) * b.bytesPerSector
  {
    AcceptedClusterSize(b);
    AffineClusters(GeometryOf(b), MetadataSectors32(b), b.sectorsPerCluster, b.bytesPerSector, cluster);
  }

  lemma AffineClusters(g: Geometry, meta: nat, spc: nat, bps: nat, cluster: nat)
    requires meta < U32_MODULUS && bps < 0x1_0000
    requires g.clustersBegin == meta * bps && g.clustersSize == spc * bps && g.clustersSize < MAX_CLUSTER_SIZE
    requires 2 <= cluster < U32_MODULUS
    ensures ClusterToBytes(g, 2) == g.clustersBegin
    ensures ClusterToBytes(g, cluster + 1) == ClusterToBytes(g, cluster) + g.clustersSize
    ensures ClusterToBytes(g, cluster) == (meta + (cluster - 2) * spc) * bps
  {
    assert g.clustersBegin < U32_MODULUS * 0x1_0000 by {
      MulBound(meta, U32_MODULUS, bps, 0x1_0000);
    }
    ClusterToBytesNoWrap(g, 2);
    ClusterToBytesNoWrap(g, cluster);
    ClusterToBytesNoWrap(g, cluster + 1);
    var n := cluster - 2;
    assert (n + 1) * g.clustersSize == n * g.clustersSize + g.clustersSize;
    assert n * (spc * bps) == (n * spc) * bps;
  }

  /** Away from the wrap-around, `cluster_to_bytes` is the plain affine formula. */
  lemma ClusterToBytesNoWrap(g: Geometry, cluster: nat)
    requires g.clustersBegin < U32_MODULUS * 0x1_0000 && g.clustersSize < MAX_CLUSTER_SIZE
    requires 2 <= cluster <= U32_MODULUS
    ensures ClusterToBytes(g, cluster) == g.clustersBegin + (cluster - 2) * g.clustersSize
  {
    MulBound(cluster - 2, U32_MODULUS, g.clustersSize, MAX_CLUSTER_SIZE);
    var x := g.clustersBegin + (cluster - 2) * g.clustersSize;
    assert 0 <= x < SIZE_MODULUS;
  }

  /** Helper: the product of two bounded naturals is bounded by the product of the bounds. */
  lemma MulBound(x: nat, xBound: nat, y: nat, yBound: nat)
    requires x < xBound && y < yBound
    ensures x * y < xBound * yBound
  {
    assert x * y <= x * yBound;
  }

  /**
   * The global `vfat_info` of the reader: the boot sector read from the
   * device and the geometry derived from it.
   */
  class Volume {
    var boot: BootSector
    var fatBegin: nat
    var fatSize: nat
    var clustersBegin: nat
    var clustersSize: nat

    function Layout(): Geometry
      reads this
    {
      Geometry(fatBegin, fatSize, clustersBegin, clustersSize)
    }

    /** The zero-initialised global. */
    constructor ()
      ensures boot == ZeroBoot && Layout() == Geometry(0, 0, 0, 0)
    {
      boot := ZeroBoot;
      fatBegin, fatSize, clustersBegin, clustersSize := 0, 0, 0, 0;
    }

    /**
     * The part of `vfat_init` between reading the boot sector and reading
     * the FAT: validate, then fill in the geometry. A rejection ends the
     * process in the C code, before any geometry field is written.
     */
    method Init(b: BootSector) returns (r: BootCheck)
      modifies this
      ensures boot == b && r == BootVerdict(b)
      ensures r == Accepted ==> Layout() == GeometryOf(b)
      ensures r != Accepted ==> Layout() == old(Layout())
    {
      boot := b;
      r := CheckBootValidity(b);
      if r != Accepted {
        return;
      }
      fatBegin := SectorsToBytes(boot, boot.reservedSectors);
      fatSize := SectorsToBytes(boot, boot.fat32.sectorsPerFat);
      clustersBegin := SectorsToBytes(boot, (boot.reservedSectors + boot.fat32.sectorsPerFat * boot.fatCount) % U32_MODULUS);
      clustersSize := SectorsToBytes(boot, boot.sectorsPerCluster);
    }
  }

  const ZeroBoot: BootSector := BootSector(0, 0, 0, 0, 0, 0, 0, 0,
    Fat32Fields(0, 0, 0, [0, 0, 0, 0, 0, 0, 0, 0, 0, 0, 0, 0], 0))
}
