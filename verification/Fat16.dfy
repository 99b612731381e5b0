/** The FAT16 reader of src/c/mount.c: a file in the root directory, followed along its clusters. */
module Fat16 {
  type Byte = x: int | 0 <= x < 256

  const SECTOR: nat := 512
  const ENTRY: nat := 32
  const PER_SECTOR: nat := 16
  const MAX_CLUSTER_BYTES: nat := 32768
  const WORD: nat := 0x1_0000_0000
  const END_OF_CHAIN: nat := 0xFFF8
  const SLASH: Byte := 47
  const DOT: Byte := 46
  const SPACE: Byte := 32
  const DELETED: Byte := 0xE5

  datatype Option<T> = None | Some(value: T)

  function W32(x: int): nat { x % WORD }

  // ---------------------------------------------------------------- the disk

  datatype Disk = Disk(sectors: seq<seq<Byte>>, broken: set<nat>)
  {
    predicate Ok() { forall i :: 0 <= i < |sectors| ==> |sectors[i]| == SECTOR }

    /** Whether a read of these sectors succeeds. */
    predicate Readable(lba: nat, count: nat) {
      lba + count <= |sectors| && forall i :: lba <= i < lba + count ==> i !in broken
    }

    function Bytes(lba: nat, count: nat): (s: seq<Byte>)
      requires Ok() && lba + count <= |sectors|
      ensures |s| == count * SECTOR
    {
      if count == 0 then [] else Bytes(lba, count - 1) + sectors[lba + count - 1]
    }
  }

  type Drive = d: Disk | d.Ok() witness Disk([], {})

  /** A partition of a drive. */
  datatype Volume = Volume(drive: Drive, base: nat)
  {
    /** fat16n_read_sectors */
    function Read(lba: nat, count: nat): (got: Option<seq<Byte>>)
      ensures got.Some? ==> |got.value| == count * SECTOR
    {
      var at := W32(base + lba);
      if drive.Readable(at, count) then Some(drive.Bytes(at, count)) else None
    }
  }

  function U16(s: seq<Byte>, off: nat): (n: nat)
    requires off + 2 <= |s|
    ensures n < 0x1_0000
  {
    s[off] as int + 0x100 * (s[off + 1] as int)
  }

  function U32(s: seq<Byte>, off: nat): (n: nat)
    requires off + 4 <= |s|
    ensures n < WORD
  {
    U16(s, off) + 0x1_0000 * U16(s, off + 2)
  }

  // ---------------------------------------------------------------- the layout of a volume

  datatype Layout = Layout(sectorsPerCluster: Byte, reserved: nat, fats: Byte, rootEntries: nat, sectorsPerFat: nat)
  {
    function RootLba(): nat { reserved + fats * sectorsPerFat }

    function RootSectors(): nat { rootEntries * ENTRY / SECTOR }

    function ClusterLba(cluster: nat): nat { W32(RootLba() + RootSectors() + (cluster - 2) * sectorsPerCluster) }

    function ClusterBytes(): nat { sectorsPerCluster * SECTOR }
  }

  /** fat16n_read_bpb */
  function LayoutOf(volume: Volume): Option<Layout>
  {
    match volume.Read(0, 1)
    case None => None
    case Some(s) =>
      if U16(s, 11) != SECTOR then None
      else Some(Layout(s[13], U16(s, 14), s[16], U16(s, 17), U16(s, 22)))
  }

  function OffsetInSector(cluster: nat): (off: nat)
    ensures off + 2 <= SECTOR
  {
    cluster * 2 % SECTOR
  }

  /** fat16n_fat_entry: an unreadable table ends the chain. */
  function FatEntry(volume: Volume, layout: Layout, cluster: nat): (next: nat)
    ensures next < 0x1_0000
  {
    match volume.Read(layout.reserved + cluster * 2 / SECTOR, 1)
    case None => 0xFFFF
    case Some(s) => U16(s, OffsetInSector(cluster))
  }

  // ---------------------------------------------------------------- a chain of clusters

  /** The clusters of a volume and the table that links them. */
  datatype Clusters = Clusters(next: nat -> nat, read: nat -> Option<seq<Byte>>, size: nat)
  {
    ghost predicate Ok() {
      0 < size <= MAX_CLUSTER_BYTES && forall c: nat :: read(c).Some? ==> |read(c).value| == size
    }

    function At(start: nat, k: nat): nat {
      if k == 0 then start else next(At(start, k - 1))
    }

    /** The first n clusters can be read, and the chain does not end among them. */
    ghost predicate Reaches(start: nat, n: nat) {
      n == 0 || (Reaches(start, n - 1) && (n == 1 || At(start, n - 1) < END_OF_CHAIN) && read(At(start, n - 1)).Some?)
    }

    /** Their bytes. */
    ghost function Contents(start: nat, n: nat): seq<Byte>
      requires Reaches(start, n)
    {
      if n == 0 then [] else Contents(start, n - 1) + read(At(start, n - 1)).value
    }

    lemma {:induction false} ContentsLength(start: nat, n: nat)
      requires Ok() && Reaches(start, n)
      ensures |Contents(start, n)| == n * size
    {
      if n > 0 {
        ContentsLength(start, n - 1);
        Distribute(n - 1, size);
      }
    }

    lemma {:induction false} ReachesLess(start: nat, n: nat, k: nat)
      requires k <= n && Reaches(start, n)
      ensures Reaches(start, k)
    {
      if k < n { ReachesLess(start, n - 1, k); }
    }

    /** The same, said of every cluster at once. */
    ghost predicate Linked(start: nat, n: nat) {
      && (forall k :: 0 <= k < n ==> read(At(start, k)).Some?)
      && (forall k :: 0 < k < n ==> At(start, k) < END_OF_CHAIN)
    }

    lemma {:induction false} ReachesIffLinked(start: nat, n: nat)
      ensures Reaches(start, n) <==> Linked(start, n)
    {
      if n > 0 {
        ReachesIffLinked(start, n - 1);
        var k := n - 1;
        if Linked(start, n) {
          assert Linked(start, k) && read(At(start, k)).Some? && (k == 0 || At(start, k) < END_OF_CHAIN);
        }
      }
    }
  }

  function ClustersOf(volume: Volume, layout: Layout): (clusters: Clusters)
    ensures 0 < layout.ClusterBytes() <= MAX_CLUSTER_BYTES ==> clusters.Ok()
  {
    Clusters(
      (c: nat) => FatEntry(volume, layout, c),
      (c: nat) => volume.Read(layout.ClusterLba(c), layout.sectorsPerCluster),
      layout.ClusterBytes())
  }

  lemma Distribute(a: int, b: int)
    ensures a * b + b == (a + 1) * b
  {
  }

  function ClustersFor(size: nat, clusterBytes: nat): (n: nat)
    requires 0 < clusterBytes
  {
    (size + clusterBytes - 1) / clusterBytes
  }

  lemma ClustersForIsLeast(size: nat, clusterBytes: nat, n: nat)
    requires 0 < clusterBytes
    ensures size <= n * clusterBytes <==> ClustersFor(size, clusterBytes) <= n
  {
    var need, left := ClustersFor(size, clusterBytes), (size + clusterBytes - 1) % clusterBytes;
    assert need * clusterBytes + left == size + clusterBytes - 1;
    if need <= n {
      Times(need, n, clusterBytes);
    } else {
      Times(n, need - 1, clusterBytes);
      assert (need - 1) * clusterBytes == need * clusterBytes - clusterBytes;
    }
  }

  lemma Times(a: int, b: int, c: nat)
    requires a <= b
    ensures a * c <= b * c
  {
  }

  lemma OneMoreCluster(size: nat, clusterBytes: nat, n: nat)
    requires 0 < clusterBytes && n * clusterBytes < size
    ensures n < ClustersFor(size, clusterBytes)
    ensures n * clusterBytes + clusterBytes == (n + 1) * clusterBytes
    ensures (n + 1) * clusterBytes < size <==> n + 1 < ClustersFor(size, clusterBytes)
  {
    ClustersForIsLeast(size, clusterBytes, n);
    ClustersForIsLeast(size, clusterBytes, n + 1);
    Distribute(n, clusterBytes);
  }

  // ---------------------------------------------------------------- following a chain

  method CopyBytes(source: seq<Byte>, chunk: nat, data: array<Byte>, written: nat)
    requires chunk <= |source| && written + chunk <= data.Length
    modifies data
    ensures data[..written + chunk] == old(data[..written]) + source[..chunk]
  {
    ghost var before := data[..written];
    for i := 0 to chunk
      invariant data[..written] == before && data[written..written + i] == source[..i]
    {
      data[written + i] := source[i];
    }
    assert data[..written + chunk] == data[..written] + data[written..written + chunk];
  }

  method Limit(size: nat, clusterBytes: nat) returns (limit: nat)
    requires size < WORD && 0 < clusterBytes <= MAX_CLUSTER_BYTES
    ensures limit == if size + clusterBytes - 1 < WORD then ClustersFor(size, clusterBytes) + 2 else 2
  {
    Wraps(size + clusterBytes - 1);
    limit := W32(size + clusterBytes - 1) / clusterBytes + 2;
    if size + clusterBytes - 1 >= WORD { NoneWhole(size + clusterBytes - 1 - WORD, clusterBytes); }
  }

  lemma Wraps(x: nat)
    requires x < 2 * WORD
    ensures W32(x) == if x < WORD then x else x - WORD
  {
  }

  lemma NoneWhole(x: nat, c: nat)
    requires x < c
    ensures x / c == 0
  {
  }

  method ChunkOf(written: nat, clusterBytes: nat, size: nat) returns (chunk: nat)
    requires written < size && written + clusterBytes < WORD
    ensures chunk == if written + clusterBytes > size then size - written else clusterBytes
  {
    Wraps(written + clusterBytes);
    chunk := if W32(written + clusterBytes) > size then size - written else clusterBytes;
  }

  /** One turn of the cluster loop: the n-th cluster is read and copied. */
  method TakeCluster(clusters: Clusters, start: nat, ghost n: nat, cluster: nat, written: nat, data: array<Byte>)
    returns (ok: bool, total: nat)
    requires clusters.Ok() && clusters.Reaches(start, n) && cluster == clusters.At(start, n)
    requires n > 0 ==> cluster < END_OF_CHAIN
    requires written < data.Length && written + clusters.size < WORD
    requires data[..written] == clusters.Contents(start, n)
    modifies data
    ensures ok == clusters.Reaches(start, n + 1)
    ensures ok ==>
              && total == (if written + clusters.size > data.Length then data.Length else written + clusters.size)
              && total <= |clusters.Contents(start, n + 1)| && data[..total] == clusters.Contents(start, n + 1)[..total]
  {
    var got := clusters.read(cluster);
    if got == None { return false, written; }
    var chunk := ChunkOf(written, clusters.size, data.Length);
    CopyBytes(got.value, chunk, data, written);
    ok, total := true, written + chunk;
  }

  /** The bytes of a file are the first ones of its clusters. */
  ghost predicate FileIs(clusters: Clusters, start: nat, size: nat, data: seq<Byte>)
    requires 0 < clusters.size
  {
    var need := ClustersFor(size, clusters.size);
    && clusters.Reaches(start, need) && |data| == size <= |clusters.Contents(start, need)|
    && data == clusters.Contents(start, need)[..size]
  }

  /** The cluster loop of cc_read_file_into_vector_native: it fails exactly if the chain is too
      short, or the size does not round up within 32 bits; the limit on the turns stops nothing else. */
  method ReadClusters(clusters: Clusters, start: nat, size: nat) returns (ok: bool, data: array<Byte>)
    requires clusters.Ok() && 0 < size < WORD
    ensures ok <==> size + clusters.size - 1 < WORD && clusters.Reaches(start, ClustersFor(size, clusters.size))
    ensures ok ==> FileIs(clusters, start, size, data[..])
    ensures fresh(data)
  {
    data := new Byte[size];
    var cluster, written, iter := start, 0, 0;
    var limit := Limit(size, clusters.size);
    ghost var need := ClustersFor(size, clusters.size);
    ok := false;
    while iter < limit && written < size
      invariant data.Length == size
      invariant written == iter * clusters.size < size && !ok
      invariant clusters.Reaches(start, iter) && cluster == clusters.At(start, iter)
      invariant iter > 0 ==> cluster < END_OF_CHAIN
      invariant data[..written] == clusters.Contents(start, iter)
      decreases limit - iter
    {
      OneMoreCluster(size, clusters.size, iter);
      FewTurns(iter, limit, size, clusters.size);
      if clusters.Reaches(start, need) { clusters.ReachesLess(start, need, iter + 1); }
      var more;
      more, written := TakeCluster(clusters, start, iter, cluster, written, data);
      if !more { return; }
      if written >= size {
        assert data[..size] == data[..];
        ok := true;
        break;
      }
      if clusters.Reaches(start, need) { clusters.ReachesLess(start, need, iter + 2); }
      var next := clusters.next(cluster);
      if next >= END_OF_CHAIN { return; }
      cluster := next;
      iter := iter + 1;
      clusters.ContentsLength(start, iter);
    }
    if !ok { OneMoreCluster(size, clusters.size, iter); }
  }

  /** No turn overflows, and where rounding does two turns are far too few. */
  lemma FewTurns(iter: nat, limit: nat, size: nat, clusterBytes: nat)
    requires size < WORD && 0 < clusterBytes <= MAX_CLUSTER_BYTES && iter < limit && iter * clusterBytes < size
    requires size + clusterBytes - 1 >= WORD ==> limit == 2
    ensures iter * clusterBytes + clusterBytes < WORD
    ensures size + clusterBytes - 1 >= WORD ==> iter * clusterBytes + clusterBytes < size
  {
    if size + clusterBytes - 1 >= WORD { Times(iter, 1, clusterBytes); }
  }

  // ---------------------------------------------------------------- the root directory

  type DirEntry = e: seq<Byte> | |e| == ENTRY witness seq(ENTRY, _ => 0)

  function EntryIn(sector: seq<Byte>, i: nat): DirEntry
    requires |sector| == SECTOR && i < PER_SECTOR
  {
    sector[ENTRY * i..ENTRY * i + ENTRY]
  }

  function EntriesOf(sector: seq<Byte>): (entries: seq<DirEntry>)
    requires |sector| == SECTOR
    ensures |entries| == PER_SECTOR && forall i :: 0 <= i < PER_SECTOR ==> entries[i] == EntryIn(sector, i)
  {
    seq(PER_SECTOR, i requires 0 <= i < PER_SECTOR => EntryIn(sector, i))
  }

  /** The entries of the first n sectors of the root directory, up to one that cannot be read. */
  function Listing(volume: Volume, layout: Layout, n: nat): (entries: seq<DirEntry>)
    ensures |entries| <= n * PER_SECTOR
  {
    if n == 0 then []
    else
      var before := Listing(volume, layout, n - 1);
      if |before| < (n - 1) * PER_SECTOR then before
      else
        match volume.Read(layout.RootLba() + (n - 1), 1)
        case None => before
        case Some(sector) => before + EntriesOf(sector)
  }

  function TrimEnd(s: seq<Byte>): (t: seq<Byte>)
    ensures |t| <= |s| && t == s[..|t|] && (t != [] ==> t[|t| - 1] != SPACE)
    ensures forall i :: |t| <= i < |s| ==> s[i] == SPACE
  {
    if s == [] || s[|s| - 1] != SPACE then s else TrimEnd(s[..|s| - 1])
  }

  /** NAME.EXT, or NAME alone */
  function ShortName(entry: DirEntry): seq<Byte> {
    var ext := TrimEnd(entry[8..11]);
    TrimEnd(entry[..8]) + if ext == [] then [] else [DOT] + ext
  }

  function StartOf(entry: DirEntry): nat { U16(entry, 26) }

  function SizeOf(entry: DirEntry): (size: nat)
    ensures size < WORD
  {
    U32(entry, 28)
  }

  function UpToZero(s: seq<Byte>): (t: seq<Byte>)
    ensures |t| <= |s| && t == s[..|t|] && 0 !in t && (|t| < |s| ==> s[|t|] == 0)
  {
    if s == [] || s[0] == 0 then [] else [s[0]] + UpToZero(s[1..])
  }

  predicate Live(entry: DirEntry, name: seq<Byte>) {
    entry[0] != 0 && entry[0] != DELETED && UpToZero(ShortName(entry)) == name
  }

  /** The entry that a name stands for: the first live one with it before the end mark. */
  ghost predicate Names(entries: seq<DirEntry>, name: seq<Byte>, k: nat) {
    && k < |entries| && Live(entries[k], name)
    && forall j :: 0 <= j < k ==> entries[j][0] != 0 && !Live(entries[j], name)
  }

  method TrimmedLength(s: seq<Byte>) returns (n: nat)
    ensures n <= |s| && s[..n] == TrimEnd(s)
  {
    n := |s|;
    assert s[..|s|] == s;
    while n > 0 && s[n - 1] == SPACE
      invariant n <= |s| && TrimEnd(s[..n]) == TrimEnd(s)
    {
      assert s[..n][..n - 1] == s[..n - 1];
      n := n - 1;
    }
  }

  method CopyName(source: seq<Byte>, target: array<Byte>, p: nat)
    requires p + |source| <= target.Length
    modifies target
    ensures target[..p + |source|] == old(target[..p]) + source
  {
    ghost var before := target[..p];
    for i := 0 to |source|
      invariant target[..p] == before && target[p..p + i] == source[..i]
    {
      target[p + i] := source[i];
    }
    assert target[..p + |source|] == target[..p] + target[p..p + |source|];
  }

  method EntryName(entry: DirEntry, target: array<Byte>) returns (p: nat)
    requires target.Length == 13
    modifies target
    ensures p < 13 && target[..p] == ShortName(entry) && target[p] == 0
  {
    var nameEnd := TrimmedLength(entry[..8]);
    CopyName(entry[..8][..nameEnd], target, 0);
    p := nameEnd;
    var extEnd := TrimmedLength(entry[8..11]);
    if extEnd > 0 {
      target[p] := DOT;
      p := p + 1;
      CopyName(entry[8..11][..extEnd], target, p);
      p := p + extEnd;
    }
    target[p] := 0;
  }

  /** What C code finds at an index of a zero-terminated name. */
  function At(s: seq<Byte>, i: nat): Byte { if i < |s| then s[i] else 0 }

  method SameName(entryName: array<Byte>, ghost p: nat, name: seq<Byte>) returns (same: bool)
    requires p < entryName.Length && entryName[p] == 0 && 0 !in name
    ensures same == (UpToZero(entryName[..p]) == name)
  {
    ghost var own := UpToZero(entryName[..p]);
    assert |own| < p ==> entryName[|own|] == 0;
    var j := 0;
    while entryName[j] != 0 && At(name, j) != 0
      invariant j <= |own| && j <= |name| && own[..j] == name[..j]
      decreases |own| - j
    {
      assert own[j] == entryName[j];
      if entryName[j] != At(name, j) { return false; }
      j := j + 1;
    }
    same := entryName[j] == 0 && At(name, j) == 0;
    assert j == |own| ==> own == own[..j];
    assert j == |name| ==> name == name[..j];
  }

  predicate Passed(entry: DirEntry, name: seq<Byte>) { entry[0] != 0 && !Live(entry, name) }

  datatype Verdict = Found | Ended | Continue

  /** The inner loop of fat16n_find_root_entry */
  method SearchSector(sector: seq<Byte>, name: seq<Byte>, entryName: array<Byte>) returns (verdict: Verdict, i: nat)
    requires |sector| == SECTOR && 0 !in name && entryName.Length == 13
    modifies entryName
    ensures i <= PER_SECTOR && forall j :: 0 <= j < i ==> Passed(EntriesOf(sector)[j], name)
    ensures if i == PER_SECTOR then verdict == Continue
            else if verdict == Found then Live(EntriesOf(sector)[i], name)
            else verdict == Ended && EntriesOf(sector)[i][0] == 0
  {
    i := 0;
    while i < PER_SECTOR
      invariant i <= PER_SECTOR && forall j :: 0 <= j < i ==> Passed(EntriesOf(sector)[j], name)
    {
      var entry := EntryIn(sector, i);
      if entry[0] == 0 { return Ended, i; }
      if entry[0] != DELETED {
        var p := EntryName(entry, entryName);
        var same := SameName(entryName, p, name);
        if same { return Found, i; }
      }
      i := i + 1;
    }
    verdict := Continue;
  }

  ghost predicate AllPassed(entries: seq<DirEntry>, name: seq<Byte>, n: nat) {
    n <= |entries| && forall j :: 0 <= j < n ==> Passed(entries[j], name)
  }

  ghost predicate NoneNamed(entries: seq<DirEntry>, name: seq<Byte>) {
    forall k :: !Names(entries, name, k)
  }

  /** One sector of the listing, searched up to its i-th entry. */
  lemma SearchedSector(volume: Volume, layout: Layout, all: seq<DirEntry>, name: seq<Byte>, s: nat, sector: seq<Byte>,
          i: nat)
    requires i <= PER_SECTOR && AllPassed(all, name, s * PER_SECTOR)
             && volume.Read(layout.RootLba() + s, 1) == Some(sector)
    requires |Listing(volume, layout, s)| == s * PER_SECTOR && Listing(volume, layout, s + 1) <= all
    requires forall j :: 0 <= j < i ==> Passed(EntriesOf(sector)[j], name)
    ensures |Listing(volume, layout, s + 1)| == (s + 1) * PER_SECTOR <= |all|
    ensures AllPassed(all, name, s * PER_SECTOR + i)
    ensures i < PER_SECTOR ==> all[s * PER_SECTOR + i] == EntriesOf(sector)[i]
  {
    var before, here := Listing(volume, layout, s), EntriesOf(sector);
    assert Listing(volume, layout, s + 1) == before + here;
    forall j | 0 <= j < PER_SECTOR
      ensures all[s * PER_SECTOR + j] == here[j]
    {
      assert (before + here)[s * PER_SECTOR + j] == here[j];
    }
    forall j | 0 <= j < s * PER_SECTOR + i
      ensures Passed(all[j], name)
    {
      if j >= s * PER_SECTOR { assert Passed(here[j - s * PER_SECTOR], name); }
    }
  }

  lemma FoundOrEnded(entries: seq<DirEntry>, name: seq<Byte>, n: nat)
    requires AllPassed(entries, name, n)
    ensures n < |entries| && Live(entries[n], name) ==> Names(entries, name, n)
    ensures n < |entries| && entries[n][0] == 0 ==> NoneNamed(entries, name)
    ensures n == |entries| ==> NoneNamed(entries, name)
  {
  }

  /** fat16n_find_root_entry */
  method FindRootEntry(volume: Volume, layout: Layout, name: seq<Byte>)
    returns (found: bool, start: nat, size: nat, ghost k: nat)
    requires 0 !in name
    ensures found ==> Names(Listing(volume, layout, layout.RootSectors()), name, k)
    ensures found ==>
              var entry := Listing(volume, layout, layout.RootSectors())[k];
              start == StartOf(entry) && size == SizeOf(entry)
    ensures !found ==> NoneNamed(Listing(volume, layout, layout.RootSectors()), name)
  {
    found, start, size, k := false, 0, 0, 0;
    var entryName := new Byte[13];
    var sectors := layout.RootSectors();
    ghost var all := Listing(volume, layout, sectors);
    for s := 0 to sectors
      invariant |Listing(volume, layout, s)| == s * PER_SECTOR && Listing(volume, layout, s) <= all
      invariant AllPassed(all, name, s * PER_SECTOR)
    {
      ListingGrows(volume, layout, s + 1, sectors);
      var got := volume.Read(layout.RootLba() + s, 1);
      if got == None {
        ListingStops(volume, layout, s, sectors);
        FoundOrEnded(all, name, s * PER_SECTOR);
        return;
      }
      var sector := got.value;
      var verdict, i := SearchSector(sector, name, entryName);
      SearchedSector(volume, layout, all, name, s, sector, i);
      FoundOrEnded(all, name, s * PER_SECTOR + i);
      if verdict == Found {
        var entry := EntryIn(sector, i);
        k := s * PER_SECTOR + i;
        return true, StartOf(entry), SizeOf(entry), k;
      }
      if verdict == Ended { return; }
    }
    FoundOrEnded(all, name, sectors * PER_SECTOR);
  }

  lemma {:induction false} ListingGrows(volume: Volume, layout: Layout, n: nat, m: nat)
    requires n <= m
    ensures Listing(volume, layout, n) <= Listing(volume, layout, m)
    decreases m
  {
    if n < m { ListingGrows(volume, layout, n, m - 1); }
  }

  lemma {:induction false} ListingStops(volume: Volume, layout: Layout, n: nat, m: nat)
    requires n < m && volume.Read(layout.RootLba() + n, 1) == None
    ensures Listing(volume, layout, m) == Listing(volume, layout, n)
    decreases m
  {
    if n + 1 < m { ListingStops(volume, layout, n, m - 1); }
  }

  // ---------------------------------------------------------------- reading a file

  /** A path names the k-th entry of the root directory, and the whole of its file can be read. */
  ghost predicate Reads(volume: Volume, path: seq<Byte>, layout: Layout, k: nat) {
    var entries := Listing(volume, layout, layout.RootSectors());
    && path != [] && path[0] == SLASH && SLASH !in path[1..]
    && LayoutOf(volume) == Some(layout) && Names(entries, path[1..], k)
    && 0 < SizeOf(entries[k]) && 0 < layout.ClusterBytes() <= MAX_CLUSTER_BYTES
    && SizeOf(entries[k]) + layout.ClusterBytes() - 1 < WORD
    && ClustersOf(volume, layout).Reaches(StartOf(entries[k]), ClustersFor(SizeOf(entries[k]), layout.ClusterBytes()))
  }

  method InRoot(path: seq<Byte>) returns (ok: bool)
    requires 0 !in path
    ensures ok == (path != [] && path[0] == SLASH && SLASH !in path[1..])
  {
    if At(path, 0) != SLASH { return false; }
    for i := 1 to |path|
      invariant SLASH !in path[1..i]
    {
      if path[i] == SLASH {
        assert path[1..][i - 1] == SLASH;
        return false;
      }
    }
    assert path[1..|path|] == path[1..];
    ok := true;
  }

  /** cc_read_file_into_vector_native, once the path has been resolved to a device */
  method ReadFile(volume: Volume, path: seq<Byte>) returns (data: array?<Byte>, ghost layout: Layout, ghost k: nat)
    requires 0 !in path
    ensures data != null ==> Reads(volume, path, layout, k)
    ensures data != null ==>
              var entry := Listing(volume, layout, layout.RootSectors())[k];
              FileIs(ClustersOf(volume, layout), StartOf(entry), SizeOf(entry), data[..])
    ensures data == null ==> forall l, j :: !Reads(volume, path, l, j)
  {
    data, layout, k := null, Layout(0, 0, 0, 0, 0), 0;
    var atRoot := InRoot(path);
    if !atRoot { return; }
    var read := LayoutOf(volume);
    if read == None { return; }
    var found, start, size;
    layout := read.value;
    found, start, size, k := FindRootEntry(volume, read.value, path[1..]);
    if !found || size == 0 {
      NoOther(volume, path, layout, k);
      return;
    }
    var clusters := ClustersOf(volume, read.value);
    if clusters.size == 0 || clusters.size > MAX_CLUSTER_BYTES { return; }
    var ok, bytes := ReadClusters(clusters, start, size);
    NoOther(volume, path, layout, k);
    if ok { data := bytes; }
  }

  lemma NoOther(volume: Volume, path: seq<Byte>, layout: Layout, k: nat)
    requires path != [] && LayoutOf(volume) == Some(layout)
    requires Names(Listing(volume, layout, layout.RootSectors()), path[1..], k)
             || NoneNamed(Listing(volume, layout, layout.RootSectors()), path[1..])
    ensures forall l, j :: Reads(volume, path, l, j) ==> l == layout && j == k
  {
  }
}
