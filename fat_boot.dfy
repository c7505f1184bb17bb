/**
 * Boot sector validation of the FAT32 reader (`check_boot_validity`).
 * The C routine aborts the process with a message on the first failed
 * check; here it returns which check failed instead.
 */
module FatBoot {
  import opened Bytes

  const MAX_CLUSTER_SIZE: int := 32768
  /** Fewest data clusters a FAT32 volume may have (named MIN_NB_OF_SECTORS in the C code). */
  const MIN_NB_OF_SECTORS: int := 65525
  const BOOT_SIGNATURE: int := 0xAA55

  /** The 12 reserved bytes of the FAT32 extended BIOS parameter block. */
  type Reserved2 = s: seq<u8> | |s| == 12 witness [0, 0, 0, 0, 0, 0, 0, 0, 0, 0, 0, 0]

  /** FAT32-specific part of the boot sector (fields the reader looks at). */
  datatype Fat32Fields = Fat32Fields(
    sectorsPerFat: u32,
    version: u16,
    rootCluster: u32,
    reserved2: Reserved2,
    signature: u16)

  /** The BIOS parameter block fields the reader looks at, with their on-disk widths. */
  datatype BootSector = BootSector(
    bytesPerSector: u16,
    sectorsPerCluster: u8,
    reservedSectors: u16,
    fatCount: u8,
    rootMaxEntries: u16,
    totalSectorsSmall: u16,
    sectorsPerFatSmall: u16,
    totalSectors: u32,
    fat32: Fat32Fields)

  /** One reason per `errx` call of the validator, in the order they are tried. */
  datatype BootError =
    | InvalidBytesPerSector
    | InvalidSectorsPerCluster
    | InvalidClusterSize
    | InvalidFat32BootSector
    | ReservedNotZero
    | TooFewClusters

  datatype BootCheck = Accepted | Rejected(reason: BootError)

  predicate ValidBytesPerSector(bps: int) {
    bps == 512 || bps == 1024 || bps == 2048 || bps == 4096
  }

  predicate ValidSectorsPerCluster(spc: int) {
    spc == 1 || spc == 2 || spc == 4 || spc == 8 || spc == 16 || spc == 32 || spc == 64 || spc == 128
  }

  /** The legacy FAT12/16 fields are zero and the FAT32 version and signature are as required. */
  predicate Fat32FieldsValid(b: BootSector) {
    b.fatCount == 2 && b.rootMaxEntries == 0 && b.totalSectorsSmall == 0 && b.sectorsPerFatSmall == 0
    && b.fat32.version == 0 && b.fat32.signature == BOOT_SIGNATURE
  }

  predicate ReservedZero(r: seq<u8>) {
    forall j :: 0 <= j < |r| ==> r[j] == 0
  }

  /** Sectors before the data region, reserved area plus all FATs, exactly. */
  function MetadataSectors(b: BootSector): nat {
    b.reservedSectors + b.fat32.sectorsPerFat * b.fatCount
  }

  /**
   * `reserved_sectors + sectors_per_fat * fat_count` as C evaluates it: the
   * operands are at most 32 bits wide, so the sum is an `unsigned int`.
   */
  function MetadataSectors32(b: BootSector): u32 {
    MetadataSectors(b) % U32_MODULUS
  }

  /** `total_sectors - (...)`, also an `unsigned int` subtraction that wraps below zero. */
  function DataSectors32(b: BootSector): u32 {
    (b.totalSectors - MetadataSectors32(b)) % U32_MODULUS
  }

  /** `count_clusters` of the C code. */
  function ClusterCount32(b: BootSector): nat
    requires b.sectorsPerCluster > 0
  {
    DataSectors32(b) / b.sectorsPerCluster
  }

  /** What the validator decides, check by check in source order. */
  function BootVerdict(b: BootSector): BootCheck {
    if !ValidBytesPerSector(b.bytesPerSector) then Rejected(InvalidBytesPerSector)
    else if !ValidSectorsPerCluster(b.sectorsPerCluster) then Rejected(InvalidSectorsPerCluster)
    else if b.bytesPerSector * b.sectorsPerCluster >= MAX_CLUSTER_SIZE then Rejected(InvalidClusterSize)
    else if !Fat32FieldsValid(b) then Rejected(InvalidFat32BootSector)
    else if !ReservedZero(b.fat32.reserved2) then Rejected(ReservedNotZero)
    else if ClusterCount32(b) < MIN_NB_OF_SECTORS then Rejected(TooFewClusters)
    else Accepted
  }

  /** The validator as written, including its loop over the reserved bytes. */
  method CheckBootValidity(b: BootSector) returns (r: BootCheck)
    ensures r == BootVerdict(b)
  {
    var bps := b.bytesPerSector;
    if bps != 512 && bps != 1024 && bps != 2048 && bps != 4096 {
      return Rejected(InvalidBytesPerSector);
    }
    var spc := b.sectorsPerCluster;
    if spc != 1 && spc != 2 && spc != 4 && spc != 8 && spc != 16 && spc != 32 && spc != 64 && spc != 128 {
      return Rejected(InvalidSectorsPerCluster);
    }
    if bps * spc >= MAX_CLUSTER_SIZE {
      return Rejected(InvalidClusterSize);
    }
    if b.fatCount != 2 || b.rootMaxEntries != 0 || b.totalSectorsSmall != 0 || b.sectorsPerFatSmall != 0
       || b.fat32.version != 0 || b.fat32.signature != BOOT_SIGNATURE
    {
      return Rejected(InvalidFat32BootSector);
    }
    var offset := 0;
    while offset < |b.fat32.reserved2|
      invariant 0 <= offset <= |b.fat32.reserved2|
      invariant forall j :: 0 <= j < offset ==> b.fat32.reserved2[j] == 0
    {
      if b.fat32.reserved2[offset] != 0 {
        return Rejected(ReservedNotZero);
      }
      offset := offset + 1;
    }
    var metadata := (b.reservedSectors + b.fat32.sectorsPerFat * b.fatCount) % U32_MODULUS;
    var dataSec := (b.totalSectors - metadata) % U32_MODULUS;
    var countClusters := dataSec / spc;
    if countClusters < MIN_NB_OF_SECTORS {
      return Rejected(TooFewClusters);
    }
    return Accepted;
  }

  /** Every condition the validator imposes, in one place. */
  predicate AcceptedConditions(b: BootSector) {
    ValidBytesPerSector(b.bytesPerSector)
    && ValidSectorsPerCluster(b.sectorsPerCluster)
    && b.bytesPerSector * b.sectorsPerCluster < MAX_CLUSTER_SIZE
    && Fat32FieldsValid(b)
    && ReservedZero(b.fat32.reserved2)
    && DataSectors32(b) / b.sectorsPerCluster >= MIN_NB_OF_SECTORS
  }

  /** The validator accepts exactly the boot sectors meeting all its conditions. */
  lemma BootAcceptedIff(b: BootSector)
    ensures BootVerdict(b) == Accepted <==> AcceptedConditions(b)
  {
  }

  /** An accepted boot sector has a cluster size of at least 512 and below 32768 bytes, a multiple of 512. */
  lemma AcceptedClusterSize(b: BootSector)
    requires BootVerdict(b) == Accepted
    ensures 512 <= b.bytesPerSector * b.sectorsPerCluster < MAX_CLUSTER_SIZE
    ensures (b.bytesPerSector * b.sectorsPerCluster) % 512 == 0
  {
  }

  // ----- The data-sector count wraps around (see README, Findings) -----

  /**
   * A boot sector whose reserved area and FATs (34 sectors) are larger than
   * the whole volume (0 sectors): the 32-bit subtraction wraps to a huge
   * data-sector count, so the validator accepts it.
   */
  const WrappingBoot: BootSector := BootSector(
    512, 1, 32, 2, 0, 0, 0, 0,
    Fat32Fields(1, 0, 2, [0, 0, 0, 0, 0, 0, 0, 0, 0, 0, 0, 0], BOOT_SIGNATURE))

  lemma WrappedCountAcceptsTooSmallVolume()
    ensures WrappingBoot.totalSectors < MetadataSectors(WrappingBoot)
    ensures BootVerdict(WrappingBoot) == Accepted
  {
  }

  /** The check as evidently intended: the data-sector count in exact arithmetic. */
  function IntendedBootVerdict(b: BootSector): BootCheck {
    if !ValidBytesPerSector(b.bytesPerSector) then Rejected(InvalidBytesPerSector)
    else if !ValidSectorsPerCluster(b.sectorsPerCluster) then Rejected(InvalidSectorsPerCluster)
    else if b.bytesPerSector * b.sectorsPerCluster >= MAX_CLUSTER_SIZE then Rejected(InvalidClusterSize)
    else if !Fat32FieldsValid(b) then Rejected(InvalidFat32BootSector)
    else if !ReservedZero(b.fat32.reserved2) then Rejected(ReservedNotZero)
    else if b.totalSectors < MetadataSectors(b) then Rejected(TooFewClusters)
    else if (b.totalSectors - MetadataSectors(b)) / b.sectorsPerCluster < MIN_NB_OF_SECTORS then Rejected(TooFewClusters)
    else Accepted
  }

  /**
   * An intended-valid volume holds its reserved area and FATs and at least
   * 65525 whole clusters, and its 32-bit metadata sum does not wrap.
   */
  lemma IntendedAcceptedVolumeFits(b: BootSector)
    requires IntendedBootVerdict(b) == Accepted
    ensures MetadataSectors(b) + MIN_NB_OF_SECTORS * b.sectorsPerCluster <= b.totalSectors
    ensures MetadataSectors32(b) == MetadataSectors(b)
    ensures BootVerdict(b) == Accepted
  {
    var spc := b.sectorsPerCluster;
    var data := b.totalSectors - MetadataSectors(b);
    assert data / spc >= MIN_NB_OF_SECTORS;
    assert MIN_NB_OF_SECTORS * spc <= (data / spc) * spc <= data by {
      MulMonotone(MIN_NB_OF_SECTORS, data / spc, spc);
    }
    assert DataSectors32(b) == data;
  }

  /** Where no wrap-around happens, the source and the intended check agree. */
  lemma VerdictsAgreeWithoutWrap(b: BootSector)
    requires MetadataSectors(b) <= b.totalSectors
    ensures BootVerdict(b) == IntendedBootVerdict(b)
  {
    assert MetadataSectors32(b) == MetadataSectors(b);
    assert DataSectors32(b) == b.totalSectors - MetadataSectors(b);
  }

  lemma MulMonotone(a: int, b: int, c: nat)
    requires a <= b
    ensures a * c <= b * c
  {
  }
}
