/**
 * Short-name trimming (`trim_filename`) and the scan of one directory
 * cluster (`read_directory`). A cluster is the byte sequence read from disk;
 * the lines `read_directory` prints become a returned list.
 */
module FatDirectory {
  import opened Bytes

  const DIRECTORY_RECORD_SIZE: int := 32
  /** First byte of a deleted (unused) record. */
  const DELETED_RECORD: int := 0xE5
  const SPACE: int := 0x20

  /**
   * Attribute flags. The header defining them is not part of this model:
   * directory, volume id and long name take their FAT32 on-disk values;
   * FAT32 defines no "invalid" flag, and it is taken to be the single bit
   * 0x80.
   */
  const ATTR_VOLUME_ID: int := 0x08
  const ATTR_LFN: int := 0x0F
  const ATTR_DIR: int := 0x10
  const ATTR_INVAL: int := 0x80

  // ----- trim_filename -----

  /** The bytes of `s` that are not spaces, in their original order. */
  function WithoutSpaces(s: seq<u8>): seq<u8> {
    if s == [] then []
    else WithoutSpaces(s[..|s| - 1]) + (if s[|s| - 1] == SPACE then [] else [s[|s| - 1]])
  }

  /**
   * Removing spaces keeps every other byte value exactly as often as it
   * occurs (so no '.' appears that was not there), leaves no space behind,
   * and cannot lengthen the name.
   */
  lemma {:induction false} WithoutSpacesCounts(s: seq<u8>)
    ensures |WithoutSpaces(s)| <= |s|
    ensures multiset(WithoutSpaces(s))[SPACE] == 0
    ensures forall c: u8 :: c != SPACE ==> multiset(WithoutSpaces(s))[c] == multiset(s)[c]
  {
    if s != [] {
      var front := s[..|s| - 1];
      WithoutSpacesCounts(front);
      assert s == front + [s[|s| - 1]];
    }
  }

  /** Trimming an already trimmed name changes nothing. */
  lemma {:induction false} WithoutSpacesIdempotent(s: seq<u8>)
    ensures WithoutSpaces(WithoutSpaces(s)) == WithoutSpaces(s)
  {
    if s != [] {
      var front := s[..|s| - 1];
      WithoutSpacesIdempotent(front);
      WithoutSpacesAppend(WithoutSpaces(front), if s[|s| - 1] == SPACE then [] else [s[|s| - 1]]);
    }
  }

  /** Trimming distributes over concatenation. */
  lemma {:induction false} WithoutSpacesAppend(a: seq<u8>, b: seq<u8>)
    ensures WithoutSpaces(a + b) == WithoutSpaces(a) + WithoutSpaces(b)
    decreases |b|
  {
    if b == [] {
      assert a + b == a;
    } else {
      var front := b[..|b| - 1];
      WithoutSpacesAppend(a, front);
      assert (a + b)[..|a + b| - 1] == a + front;
    }
  }

  /**
   * `trim_filename`: copies the non-space bytes among the 11 bytes of a short
   * name into `output` and terminates them with a NUL byte; `output` must
   * hold at least 12 bytes.
   */
  method TrimFilename(output: array<u8>, nameext: seq<u8>)
    requires output.Length >= 12 && |nameext| >= 11
    modifies output
    ensures |WithoutSpaces(nameext[..11])| <= 11
    ensures output[..|WithoutSpaces(nameext[..11])|] == WithoutSpaces(nameext[..11])
    ensures output[|WithoutSpaces(nameext[..11])|] == 0
    ensures forall k :: |WithoutSpaces(nameext[..11])| < k < output.Length ==> output[k] == old(output[k])
  {
    var i := 0;
    var outOffset := 0;
    while i < 11
      invariant 0 <= i <= 11
      invariant outOffset == |WithoutSpaces(nameext[..i])| <= i
      invariant output[..outOffset] == WithoutSpaces(nameext[..i])
      invariant forall k :: outOffset <= k < output.Length ==> output[k] == old(output[k])
    {
      assert nameext[..i + 1][..i] == nameext[..i];
      if nameext[i] != SPACE {
        output[outOffset] := nameext[i];
        outOffset := outOffset + 1;
      }
      i := i + 1;
    }
    output[outOffset] := 0;
  }

  // ----- C strings -----

  /** The bytes a C string function sees: everything before the first NUL. */
  function CString(s: seq<u8>): (r: seq<u8>)
    ensures |r| <= |s| && r == s[..|r|]
    ensures forall i :: 0 <= i < |r| ==> r[i] != 0
    ensures |r| < |s| ==> s[|r|] == 0
  {
    if s == [] || s[0] == 0 then [] else [s[0]] + CString(s[1..])
  }

  /** Whatever follows a NUL terminator is invisible to a C string function. */
  lemma {:induction false} CStringStops(t: seq<u8>, rest: seq<u8>)
    ensures CString(t + [0] + rest) == CString(t)
  {
    if t != [] && t[0] != 0 {
      CStringStops(t[1..], rest);
      assert (t + [0] + rest)[1..] == t[1..] + [0] + rest;
    }
  }

  // ----- Directory records -----

  /** The fields of a 32-byte directory record the scan uses (`struct fat32_direntry`). */
  datatype DirRecord = DirRecord(nameext: seq<u8>, attr: u8, clusterHi: u16, clusterLo: u16, size: u32)

  /** The `memcpy` of a record into the packed struct: little-endian fields at their offsets. */
  function DecodeRecord(rec: seq<u8>): (e: DirRecord)
    requires |rec| >= DIRECTORY_RECORD_SIZE
    ensures |e.nameext| == 11
  {
    DirRecord(rec[..11], rec[11], LE16(rec, 20), LE16(rec, 26), LE32(rec, 28))
  }

  /** The tag `read_directory` prints in front of a name. */
  datatype Kind = Directory | VolumeId | Invalid | File

  /** One printed line: kind, trimmed name, size and first cluster. */
  datatype Listing = Listing(kind: Kind, name: seq<u8>, size: u32, firstCluster: u32)

  /**
   * `attr & flag` is non-zero for a single-bit flag exactly when that bit
   * of `attr` is set; the bit is read arithmetically.
   */
  predicate HasAttr(attr: u8, flag: int)
    requires flag in {ATTR_VOLUME_ID, ATTR_DIR, ATTR_INVAL}
  {
    (attr / flag) % 2 == 1
  }

  /** `attr & 0x0F == 0x0F`: all four low attribute bits set, a long-file-name part. */
  predicate IsLongName(attr: u8) {
    attr % 0x10 == ATTR_LFN
  }

  /** Directory wins over volume id, which wins over invalid; anything else is a file. */
  function KindOf(attr: u8): (k: Kind)
    ensures k == Directory <==> HasAttr(attr, ATTR_DIR)
    ensures k == VolumeId <==> !HasAttr(attr, ATTR_DIR) && HasAttr(attr, ATTR_VOLUME_ID)
    ensures k == Invalid <==> !HasAttr(attr, ATTR_DIR) && !HasAttr(attr, ATTR_VOLUME_ID) && HasAttr(attr, ATTR_INVAL)
  {
    if HasAttr(attr, ATTR_DIR) then Directory
    else if HasAttr(attr, ATTR_VOLUME_ID) then VolumeId
    else if HasAttr(attr, ATTR_INVAL) then Invalid
    else File
  }

  /**
   * `cluster_hi << 16 | cluster_lo`: the two 16-bit halves occupy disjoint
   * bits, so the result is the high half times 2^16 plus the low half.
   */
  function FirstCluster(hi: u16, lo: u16): u32 {
    hi as int * 0x1_0000 + lo as int
  }

  /** The two halves can be read back from the combined cluster number. */
  lemma FirstClusterHalves(hi: u16, lo: u16)
    ensures FirstCluster(hi, lo) / 0x1_0000 == hi && FirstCluster(hi, lo) % 0x1_0000 == lo
  {
  }

  /** What one record contributes: nothing if deleted or a long-name part, else one line. */
  function RecordListing(rec: seq<u8>): (r: seq<Listing>)
    requires |rec| >= DIRECTORY_RECORD_SIZE
    ensures |r| <= 1
  {
    if rec[0] == DELETED_RECORD then []
    else
      var e := DecodeRecord(rec);
      if IsLongName(e.attr) then []
      else [Listing(KindOf(e.attr), CString(WithoutSpaces(e.nameext)), e.size, FirstCluster(e.clusterHi, e.clusterLo))]
  }

  /** Record number `j` of a cluster. */
  function Record(cluster: seq<u8>, j: nat): (rec: seq<u8>)
    requires 32 * (j + 1) <= |cluster|
    ensures |rec| == DIRECTORY_RECORD_SIZE
  {
    cluster[32 * j .. 32 * (j + 1)]
  }

  /** The lines printed for records 0 .. n-1, in order. */
  function Entries(cluster: seq<u8>, n: nat): seq<Listing>
    requires 32 * n <= |cluster|
  {
    if n == 0 then [] else Entries(cluster, n - 1) + RecordListing(Record(cluster, n - 1))
  }

  /** One more record examined appends its listing to the lines so far. */
  lemma EntriesStep(cluster: seq<u8>, i: nat, k: nat, start: nat, listing: seq<Listing>, line: seq<Listing>)
    requires k == i + 1 && 32 * k <= |cluster| && start == 32 * i
    requires listing == Entries(cluster, i)
    requires line == RecordListing(cluster[start .. start + DIRECTORY_RECORD_SIZE])
    ensures listing + line == Entries(cluster, k)
  {
    assert cluster[start .. start + DIRECTORY_RECORD_SIZE] == Record(cluster, i);
  }

  /** A printed name is at most 11 bytes, with no space and no NUL in it. */
  predicate TrimmedName(name: seq<u8>) {
    |name| <= 11 && SPACE !in name && 0 !in name
  }

  /** Every line of a listing carries a trimmed name. */
  predicate AllTrimmed(lines: seq<Listing>) {
    forall l :: l in lines ==> TrimmedName(l.name)
  }

  lemma AllTrimmedAppend(a: seq<Listing>, b: seq<Listing>)
    requires AllTrimmed(a) && AllTrimmed(b)
    ensures AllTrimmed(a + b)
  {
  }

  /** Every line a record contributes carries a trimmed name. */
  lemma RecordListingName(rec: seq<u8>)
    requires |rec| >= DIRECTORY_RECORD_SIZE
    ensures AllTrimmed(RecordListing(rec))
  {
    var e := DecodeRecord(rec);
    var t := WithoutSpaces(e.nameext);
    WithoutSpacesCounts(e.nameext);
    forall i | 0 <= i < |t|
      ensures t[i] != SPACE
    {
      assert t[i] in multiset(t);
    }
    var name := CString(t);
    forall i | 0 <= i < |name|
      ensures name[i] != SPACE
    {
      assert name[i] == t[i];
    }
  }

  /** Every line of a scan carries a trimmed name. */
  lemma {:induction false} EntriesNames(cluster: seq<u8>, n: nat)
    requires 32 * n <= |cluster|
    ensures AllTrimmed(Entries(cluster, n))
  {
    if n > 0 {
      var m := n - 1;
      EntriesNames(cluster, m);
      var line := LastLineNamed(cluster, m, n);
      AllTrimmedAppend(Entries(cluster, m), line);
    }
  }

  /** The line of the last record of a scan carries a trimmed name. */
  lemma LastLineNamed(cluster: seq<u8>, m: nat, n: nat) returns (line: seq<Listing>)
    requires n == m + 1 && 32 * n <= |cluster|
    ensures Entries(cluster, n) == Entries(cluster, m) + line
    ensures AllTrimmed(line)
  {
    line := RecordListing(Record(cluster, m));
    RecordListingName(Record(cluster, m));
  }

  /** Record `k` (never the first) starts inside the cluster with a 0x00 byte: the loop stops before it. */
  predicate EndMarker(cluster: seq<u8>, k: nat) {
    1 <= k && 32 * k < |cluster| && cluster[32 * k] == 0
  }

  /** The first end marker at or after record `k`. */
  function ScanEndFrom(cluster: seq<u8>, k: nat): (n: nat)
    requires 1 <= k
    requires exists j :: k <= j && EndMarker(cluster, j)
    ensures k <= n && EndMarker(cluster, n)
    ensures forall m :: k <= m < n ==> !EndMarker(cluster, m)
    decreases |cluster| - 32 * k
  {
    if EndMarker(cluster, k) then k
    else
      assert 32 * k < |cluster|;
      ScanEndFrom(cluster, k + 1)
  }

  /** Number of records `read_directory` examines. */
  function ScanEnd(cluster: seq<u8>): (n: nat)
    requires exists j :: EndMarker(cluster, j)
    ensures EndMarker(cluster, n) && forall m :: 1 <= m < n ==> !EndMarker(cluster, m)
  {
    ScanEndFrom(cluster, 1)
  }

  /** Between record 1 and the scan's end, a 0x00 first byte marks exactly the end. */
  lemma EndMarkerIsScanEnd(cluster: seq<u8>, j: nat)
    requires exists k :: EndMarker(cluster, k)
    requires 1 <= j <= ScanEnd(cluster)
    ensures 32 * j < |cluster|
    ensures cluster[32 * j] == 0 <==> j == ScanEnd(cluster)
  {
    var n := ScanEnd(cluster);
    assert EndMarker(cluster, n);
    if j < n {
      assert !EndMarker(cluster, j);
    }
  }

  /**
   * `read_directory` on one cluster, as written: a do-while over 32-byte
   * records. The end test reads the first byte of the next record, so a
   * record starting with 0x00 must follow inside the cluster, or the loop
   * reads past it.
   */
  method ReadDirectory(cluster: seq<u8>) returns (listing: seq<Listing>)
    requires exists k :: EndMarker(cluster, k)
    ensures listing == Entries(cluster, ScanEnd(cluster))
  {
    ghost var n := ScanEnd(cluster);
    ghost var j := 0;
    var offset := 0;
    var atEnd := false;
    listing := [];
    while !atEnd
      invariant 0 <= j <= n && offset == 32 * j
      invariant atEnd <==> j == n
      invariant listing == Entries(cluster, j)
      decreases n - j
    {
      var line := ExamineRecord(cluster[offset .. offset + DIRECTORY_RECORD_SIZE]);
      ghost var previous, start, i := listing, offset, j;
      listing := listing + line;
      offset := offset + DIRECTORY_RECORD_SIZE;
      j := j + 1;
      EntriesStep(cluster, i, j, start, previous, line);
      EndMarkerIsScanEnd(cluster, j);
      atEnd := cluster[offset] == 0;
    }
  }

  /**
   * The body of the scan loop for one record: skip a deleted record, copy the
   * record out, skip a long-name part, classify it, trim its name into a
   * 12-byte buffer and combine the two halves of its first cluster.
   */
  method ExamineRecord(rec: seq<u8>) returns (line: seq<Listing>)
    requires |rec| == DIRECTORY_RECORD_SIZE
    ensures line == RecordListing(rec)
  {
    line := [];
    if rec[0] != DELETED_RECORD {
      var entry := DecodeRecord(rec);
      if entry.attr % 0x10 != ATTR_LFN {
        var kind;
        if (entry.attr / ATTR_DIR) % 2 == 1 {
          kind := Directory;
        } else if (entry.attr / ATTR_VOLUME_ID) % 2 == 1 {
          kind := VolumeId;
        } else if (entry.attr / ATTR_INVAL) % 2 == 1 {
          kind := Invalid;
        } else {
          kind := File;
        }
        var name := PrintedName(entry.nameext);
        var clusterLocation: u32 := entry.clusterHi as int * 0x1_0000 + entry.clusterLo as int;
        line := [Listing(kind, name, entry.size, clusterLocation)];
      }
    }
  }

  /**
   * The name as `read_directory` prints it: trimmed into a 12-byte buffer
   * and read up to its NUL terminator.
   */
  method PrintedName(nameext: seq<u8>) returns (name: seq<u8>)
    requires |nameext| == 11
    ensures name == CString(WithoutSpaces(nameext))
  {
    var buffer := new u8[12];
    TrimFilename(buffer, nameext);
    assert nameext[..11] == nameext;
    ghost var trimmed := WithoutSpaces(nameext);
    assert buffer[..] == trimmed + [0] + buffer[|trimmed| + 1..];
    CStringStops(trimmed, buffer[|trimmed| + 1..]);
    name := CString(buffer[..]);
  }

  // ----- the scan as intended -----

  /**
   * The lines for records `j`, `j + 1`, ... up to the first record starting
   * with 0x00 or the end of the cluster, whichever comes first.
   */
  function IntendedFrom(cluster: seq<u8>, j: nat): seq<Listing>
    decreases |cluster| - 32 * j
  {
    if |cluster| < 32 * (j + 1) || cluster[32 * j] == 0 then []
    else RecordListing(Record(cluster, j)) + IntendedFrom(cluster, j + 1)
  }

  /** The listing of a directory cluster: test for the end before each record, from record 0. */
  function IntendedListing(cluster: seq<u8>): seq<Listing> {
    IntendedFrom(cluster, 0)
  }

  /**
   * `read_directory` with the end test moved in front of each record and
   * bounded by the cluster: a while loop in place of the do-while.
   */
  method ReadDirectoryIntended(cluster: seq<u8>) returns (listing: seq<Listing>)
    ensures listing == IntendedListing(cluster)
  {
    ghost var j := 0;
    var offset := 0;
    listing := [];
    while offset + DIRECTORY_RECORD_SIZE <= |cluster| && cluster[offset] != 0
      invariant offset == 32 * j
      invariant listing + IntendedFrom(cluster, j) == IntendedListing(cluster)
      decreases |cluster| - offset
    {
      var line := ExamineRecord(cluster[offset .. offset + DIRECTORY_RECORD_SIZE]);
      ghost var previous, start, i := listing, offset, j;
      listing := listing + line;
      offset := offset + DIRECTORY_RECORD_SIZE;
      j := j + 1;
      IntendedStep(cluster, i, j, start, previous, line);
    }
  }

  /** One record examined by the intended loop moves its listing from the rest to the lines so far. */
  lemma IntendedStep(cluster: seq<u8>, i: nat, k: nat, start: nat, listing: seq<Listing>, line: seq<Listing>)
    requires k == i + 1 && 32 * k <= |cluster| && start == 32 * i && cluster[start] != 0
    requires listing + IntendedFrom(cluster, i) == IntendedListing(cluster)
    requires line == RecordListing(cluster[start .. start + DIRECTORY_RECORD_SIZE])
    ensures (listing + line) + IntendedFrom(cluster, k) == IntendedListing(cluster)
  {
    assert cluster[start .. start + DIRECTORY_RECORD_SIZE] == Record(cluster, i);
    assert IntendedFrom(cluster, i) == line + IntendedFrom(cluster, k);
    assert listing + (line + IntendedFrom(cluster, k)) == (listing + line) + IntendedFrom(cluster, k);
  }

  /**
   * Up to the as-written scan's end, the records read so far followed by the
   * intended scan from there give the as-written listing.
   */
  lemma {:induction false} EntriesThenIntended(cluster: seq<u8>, n: nat, j: nat)
    requires EndMarker(cluster, n) && forall m :: 1 <= m < n ==> !EndMarker(cluster, m)
    requires j <= n
    requires j == 0 ==> cluster[0] != 0
    ensures Entries(cluster, j) + IntendedFrom(cluster, j) == Entries(cluster, n)
    decreases n - j
  {
    if j == n {
      assert IntendedFrom(cluster, j) == [];
    } else {
      var k := j + 1;
      assert !EndMarker(cluster, j);
      var line := RecordStep(cluster, j, k);
      EntriesThenIntended(cluster, n, k);
      AppendAssociative(Entries(cluster, j), line, IntendedFrom(cluster, k));
    }
  }

  lemma AppendAssociative<T>(a: seq<T>, b: seq<T>, c: seq<T>)
    ensures a + (b + c) == (a + b) + c
  {
  }

  /** A record in use, inside the cluster, contributes the same line to both scans. */
  lemma RecordStep(cluster: seq<u8>, j: nat, k: nat) returns (line: seq<Listing>)
    requires k == j + 1 && 32 * k <= |cluster| && cluster[32 * j] != 0
    ensures Entries(cluster, k) == Entries(cluster, j) + line
    ensures IntendedFrom(cluster, j) == line + IntendedFrom(cluster, k)
  {
    line := RecordListing(Record(cluster, j));
  }

  /**
   * When the first record is in use and an end marker follows inside the
   * cluster, the do-while and the intended loop print the same lines.
   */
  lemma ScansAgree(cluster: seq<u8>)
    requires exists k :: EndMarker(cluster, k)
    requires cluster[0] != 0
    ensures Entries(cluster, ScanEnd(cluster)) == IntendedListing(cluster)
  {
    EntriesThenIntended(cluster, ScanEnd(cluster), 0);
  }

  /** Two records of zeros: an empty directory cluster. */
  const EmptyCluster: seq<u8> := seq(64, _ => 0)

  /**
   * On an empty directory the do-while prints record 0 anyway, as a file
   * with an empty name, size 0 and first cluster 0; the intended scan
   * prints nothing.
   */
  lemma EmptyClusterListsPhantomFile()
    ensures EndMarker(EmptyCluster, 1) && ScanEnd(EmptyCluster) == 1
    ensures Entries(EmptyCluster, ScanEnd(EmptyCluster)) == [Listing(File, [], 0, 0)]
    ensures IntendedListing(EmptyCluster) == []
  {
    var rec := Record(EmptyCluster, 0);
    var e := DecodeRecord(rec);
    assert e.nameext == seq(11, _ => 0);
    WithoutSpacesZeros(11);
    assert CString(e.nameext) == [];
    assert Entries(EmptyCluster, 1) == Entries(EmptyCluster, 0) + RecordListing(rec);
  }

  /** A run of NUL bytes has no space to remove. */
  lemma {:induction false} WithoutSpacesZeros(n: nat)
    ensures WithoutSpaces(seq(n, _ => 0)) == seq(n, _ => 0)
  {
    if n > 0 {
      WithoutSpacesZeros(n - 1);
      assert seq(n, _ => 0)[..n - 1] == seq(n - 1, _ => 0);
      assert seq(n - 1, _ => 0) + [0] == seq(n, _ => 0);
    }
  }

  /** A record in use: a file named "A". */
  const InUseRecord: seq<u8> := [0x41] + seq(31, _ => 0)

  /** The line it prints: a file "A" of size 0 starting at cluster 0. */
  const InUseLine: Listing := Listing(File, [0x41], 0, 0)

  lemma InUseRecordLine()
    ensures RecordListing(InUseRecord) == [InUseLine]
  {
    var e := DecodeRecord(InUseRecord);
    var zeros: seq<u8> := seq(10, _ => 0);
    assert e.nameext == [0x41] + zeros;
    WithoutSpacesAppend([0x41], zeros);
    WithoutSpacesZeros(10);
    assert WithoutSpaces([0x41]) == [0x41] by {
      assert [0x41][..0] == [];
    }
    assert CString([0x41] + zeros) == [0x41] by {
      assert ([0x41] + zeros)[1..] == zeros;
    }
  }

  /**
   * A 512-byte cluster, the smallest an accepted volume has, whose 16
   * records are all in use.
   */
  const FullCluster: seq<u8> := seq(512, i requires 0 <= i => InUseRecord[i % 32])

  /**
   * A cluster whose records are all in use has no end marker inside it, so
   * the do-while's end test reads the byte after the cluster; the intended
   * scan stops at the cluster's end and lists all 16 records.
   */
  lemma FullClusterOverruns()
    ensures |FullCluster| == 512
    ensures !exists k :: EndMarker(FullCluster, k)
    ensures IntendedListing(FullCluster) == seq(16, _ => InUseLine)
  {
    FullClusterNoEndMarker();
    IntendedFromFull(0);
  }

  /** Every record of FullCluster starts with a non-zero byte. */
  lemma FullClusterNoEndMarker()
    ensures forall k: nat :: 32 * k < |FullCluster| ==> FullCluster[32 * k] != 0
  {
    forall k: nat | 32 * k < |FullCluster|
      ensures FullCluster[32 * k] != 0
    {
      assert (32 * k) % 32 == 0;
    }
  }

  /** Every record of FullCluster is the record in use. */
  lemma FullClusterRecord(j: nat)
    requires j < 16
    ensures Record(FullCluster, j) == InUseRecord
  {
    forall i | 0 <= i < 32
      ensures Record(FullCluster, j)[i] == InUseRecord[i]
    {
      assert (32 * j + i) % 32 == i;
    }
  }

  /** From record `j` on, the intended scan of FullCluster lists one line per remaining record. */
  lemma {:induction false} IntendedFromFull(j: nat)
    requires j <= 16
    ensures IntendedFrom(FullCluster, j) == seq(16 - j, _ => InUseLine)
    decreases 16 - j
  {
    if j < 16 {
      FullClusterRecord(j);
      InUseRecordLine();
      IntendedFromFull(j + 1);
      assert [InUseLine] + seq(16 - (j + 1), _ => InUseLine)
          == seq(16 - j, _ => InUseLine);
    }
  }
}
