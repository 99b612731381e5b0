/** Writing a FAT16 volume with a list of files, and the reader of Fat16 as its inverse. */
module Formatter {
  import opened Fat16

  type Sector = s: seq<Byte> | |s| == SECTOR witness seq(SECTOR, _ => 0)

  // ---------------------------------------------------------------- what is to be written

  /** A file with the clusters it is to occupy, in any order, and 15 bytes of its entry that are
      not read. */
  datatype File = File(name: seq<Byte>, ext: seq<Byte>, info: seq<Byte>, data: seq<Byte>, chain: seq<nat>)

  /** An entry of the root directory: a file, or what a deleted one has left. */
  datatype Slot = Used(file: File) | Erased(rest: seq<Byte>)

  /** The shape of a volume, what stands between the fields of its parameter block, and its
      root directory. */
  datatype Plan = Plan(perCluster: nat, reserved: nat, fats: nat, rootEntries: nat, perFat: nat, clusters: nat,
      jump: seq<Byte>, media: seq<Byte>, code: seq<Byte>, slots: seq<Slot>)

  function FileName(f: File): seq<Byte> { f.name + if f.ext == [] then [] else [DOT] + f.ext }

  /** A part of a name: no zero, no slash, and no blank at the end. */
  predicate PartOk(s: seq<Byte>) { 0 !in s && SLASH !in s && (s != [] ==> s[|s| - 1] != SPACE) }

  predicate NameOk(f: File) {
    && 1 <= |f.name| <= 8 && |f.ext| <= 3 && |f.info| == 15
    && PartOk(f.name) && PartOk(f.ext) && f.name[0] != DELETED
  }

  /** As many clusters as the data need, each of them once. */
  ghost predicate ChainOk(f: File, clusterBytes: nat, clusters: nat) {
    && |f.chain| <= clusters && (forall i :: 0 <= i < |f.chain| ==> 2 <= f.chain[i] < clusters + 2)
    && (forall i, j :: 0 <= i < j < |f.chain| ==> f.chain[i] != f.chain[j])
    && |f.data| <= |f.chain| * clusterBytes && (f.chain != [] ==> (|f.chain| - 1) * clusterBytes < |f.data|)
  }

  predicate Owns(slot: Slot, c: nat) { slot.Used? && c in slot.file.chain }

  /** Two files share neither their name nor a cluster. */
  ghost predicate Apart(a: Slot, b: Slot) {
    a.Used? && b.Used? ==> FileName(a.file) != FileName(b.file) && Disjoint(a, b)
  }

  ghost predicate Disjoint(a: Slot, b: Slot) { forall c :: Owns(a, c) ==> !Owns(b, c) }

  predicate EntryOk(slot: Slot) { if slot.Used? then NameOk(slot.file) else |slot.rest| == ENTRY - 1 }

  predicate EntriesOk(slots: seq<Slot>) { forall k :: 0 <= k < |slots| ==> EntryOk(slots[k]) }

  ghost predicate SlotOk(slot: Slot, clusterBytes: nat, clusters: nat) {
    EntryOk(slot) && (slot.Used? ==> ChainOk(slot.file, clusterBytes, clusters))
  }

  ghost predicate PlanOk(p: Plan) {
    && 1 <= p.perCluster <= 64 && 1 <= p.reserved < 0x1_0000 && 1 <= p.fats < 256
    && p.rootEntries < 0x1_0000 && p.rootEntries % PER_SECTOR == 0 && p.perFat < 0x1_0000
    && p.clusters + 2 <= 256 * p.perFat && p.clusters + 2 <= END_OF_CHAIN && |p.slots| <= p.rootEntries
    && |p.jump| == 11 && |p.media| == 3 && |p.code| == SECTOR - 24
    && (forall k :: 0 <= k < |p.slots| ==> SlotOk(p.slots[k], p.perCluster * SECTOR, p.clusters))
    && forall j, k :: 0 <= j < k < |p.slots| ==> Apart(p.slots[j], p.slots[k])
  }

  // ---------------------------------------------------------------- bytes

  /** `n` bytes of a number, least significant first. */
  function Little(v: nat, n: nat): (s: seq<Byte>)
    ensures |s| == n
  {
    if n == 0 then [] else [v % 256] + Little(v / 256, n - 1)
  }

  function Padded(s: seq<Byte>, n: nat, filler: Byte): (t: seq<Byte>)
    requires |s| <= n
    ensures |t| == n
  {
    s + seq(n - |s|, _ => filler)
  }

  function Cut(s: seq<Byte>, n: nat): (sectors: seq<Sector>)
    requires |s| == n * SECTOR
    ensures |sectors| == n
  {
    if n == 0 then [] else Cut(s[..(n - 1) * SECTOR], n - 1) + [s[(n - 1) * SECTOR..]]
  }

  // ---------------------------------------------------------------- the parts of a volume

  /** The parameter block: from byte 11 on, the bytes of a sector, the sectors of a cluster, the
      reserved sectors, the number of tables, the root entries and, from byte 22 on, the sectors of
      a table. */
  function Boot(p: Plan): Sector
    requires 1 <= p.perCluster < 256 && p.fats < 256 && |p.jump| == 11 && |p.media| == 3 && |p.code| == SECTOR - 24
  {
    p.jump + Little(512, 2) + [p.perCluster] + Little(p.reserved, 2) + [p.fats] + Little(p.rootEntries, 2)
    + p.media + Little(p.perFat, 2) + p.code
  }

  function IndexOf(chain: seq<nat>, c: nat): (i: nat)
    requires c in chain
    ensures i < |chain| && chain[i] == c
  {
    if chain[|chain| - 1] == c then |chain| - 1 else IndexOf(chain[..|chain| - 1], c)
  }

  /** What the table says of a cluster: the next one of the same file, an end, or nothing. */
  function Link(slots: seq<Slot>, n: nat, c: nat): nat
    requires n <= |slots|
  {
    if n == 0 then 0
    else if Owns(slots[n - 1], c) then
      var chain := slots[n - 1].file.chain;
      var i := IndexOf(chain, c);
      if i + 1 < |chain| then chain[i + 1] else 0xFFFF
    else Link(slots, n - 1, c)
  }

  /** The words of the table from the first one on. */
  function TableBytes(slots: seq<Slot>, n: nat): (s: seq<Byte>)
    ensures |s| == 2 * n
  {
    if n == 0 then [] else TableBytes(slots, n - 1) + Little(Link(slots, |slots|, n - 1), 2)
  }

  function Table(p: Plan): (sectors: seq<Sector>)
    ensures |sectors| == p.perFat
  {
    Cut(TableBytes(p.slots, 256 * p.perFat), p.perFat)
  }

  function Tables(p: Plan, n: nat): (sectors: seq<Sector>)
    ensures |sectors| == n * p.perFat
  {
    if n == 0 then [] else Tables(p, n - 1) + Table(p)
  }

  function SlotBytes(slot: Slot): (s: seq<Byte>)
    requires EntryOk(slot)
    ensures |s| == ENTRY
  {
    match slot
    case Erased(rest) => [DELETED] + rest
    case Used(f) =>
      Padded(f.name, 8, SPACE) + Padded(f.ext, 3, SPACE) + f.info
      + Little(if f.chain == [] then 0 else f.chain[0], 2) + Little(|f.data|, 4)
  }

  /** The entries of the slots, and empty ones behind them. */
  function RootBytes(slots: seq<Slot>, n: nat): (s: seq<Byte>)
    requires EntriesOk(slots)
    ensures |s| == n * ENTRY
  {
    if n == 0 then []
    else RootBytes(slots, n - 1) + if n <= |slots| then SlotBytes(slots[n - 1]) else seq(ENTRY, _ => 0)
  }

  /** The bytes of a cluster: a part of a file, filled up with zeros. */
  function Piece(data: seq<Byte>, from: nat, size: nat): (s: seq<Byte>)
    ensures |s| == size
  {
    if from >= |data| then seq(size, _ => 0)
    else Padded(if |data| - from < size then data[from..] else data[from..from + size], size, 0)
  }

  function ClusterBytes(slots: seq<Slot>, n: nat, c: nat, size: nat): (s: seq<Byte>)
    requires n <= |slots|
    ensures |s| == size
  {
    if n == 0 then seq(size, _ => 0)
    else if Owns(slots[n - 1], c) then
      Piece(slots[n - 1].file.data, IndexOf(slots[n - 1].file.chain, c) * size, size)
    else ClusterBytes(slots, n - 1, c, size)
  }

  /** The clusters one after another, from number 2 on. */
  function DataSectors(p: Plan, n: nat): (sectors: seq<Sector>)
    ensures |sectors| == n * p.perCluster
  {
    if n == 0 then []
    else DataSectors(p, n - 1) + Cut(ClusterBytes(p.slots, |p.slots|, n + 1, p.perCluster * SECTOR), p.perCluster)
  }

  function Front(p: Plan): (sectors: seq<Sector>)
    requires 1 <= p.perCluster < 256 && 1 <= p.reserved && p.fats < 256
    requires |p.jump| == 11 && |p.media| == 3 && |p.code| == SECTOR - 24
    ensures |sectors| == p.reserved
  {
    [Boot(p)] + seq(p.reserved - 1, _ => seq(SECTOR, _ => 0))
  }

  ghost function Root(p: Plan): (sectors: seq<Sector>)
    requires PlanOk(p)
    ensures |sectors| == p.rootEntries / PER_SECTOR
  {
    Cut(RootBytes(p.slots, p.rootEntries), p.rootEntries / PER_SECTOR)
  }

  ghost function Image(p: Plan): seq<Sector>
    requires PlanOk(p)
  {
    Front(p) + Tables(p, p.fats) + Root(p) + DataSectors(p, p.clusters)
  }

  /** The volume holds these sectors, and they can be read. */
  ghost predicate Holds(v: Volume, image: seq<Sector>) {
    && v.base + |image| <= |v.drive.sectors| && v.base + |image| < WORD
    && forall i :: 0 <= i < |image| ==> v.drive.sectors[v.base + i] == image[i] && v.base + i !in v.drive.broken
  }

  // ---------------------------------------------------------------- sectors

  function Flat(sectors: seq<Sector>): seq<Byte> {
    if sectors == [] then [] else Flat(sectors[..|sectors| - 1]) + sectors[|sectors| - 1]
  }

  lemma {:induction false} BytesAre(d: Drive, lba: nat, part: seq<Sector>)
    requires lba + |part| <= |d.sectors| && forall i :: 0 <= i < |part| ==> d.sectors[lba + i] == part[i]
    ensures d.Bytes(lba, |part|) == Flat(part)
    decreases |part|
  {
    if part != [] { BytesAre(d, lba, part[..|part| - 1]); }
  }

  /** These sectors are in the image at this place. */
  ghost predicate PartAt(image: seq<Sector>, lba: nat, part: seq<Sector>) {
    lba + |part| <= |image| && forall i :: 0 <= i < |part| ==> image[lba + i] == part[i]
  }

  lemma PartReads(v: Volume, image: seq<Sector>, lba: nat, part: seq<Sector>)
    requires Holds(v, image) && PartAt(image, lba, part)
    ensures v.Read(lba, |part|) == Some(Flat(part))
  {
    var at := v.base + lba;
    Wraps(at);
    forall i | 0 <= i < |part| ensures v.drive.sectors[at + i] == part[i] && at + i !in v.drive.broken {
      assert v.drive.sectors[v.base + (lba + i)] == image[lba + i];
    }
    forall i | at <= i < at + |part| ensures i !in v.drive.broken {
      assert v.drive.sectors[v.base + (i - v.base)] == image[i - v.base];
    }
    BytesAre(v.drive, at, part);
  }

  lemma SectorReads(v: Volume, image: seq<Sector>, lba: nat, sector: seq<Byte>)
    requires Holds(v, image) && lba < |image| && image[lba] == sector
    ensures v.Read(lba, 1) == Some(sector)
  {
    var part := [image[lba]];
    PartReads(v, image, lba, part);
    assert part[..0] == [] && [] + sector == sector;
  }

  lemma SectorOfPart(v: Volume, image: seq<Sector>, lba: nat, part: seq<Sector>, k: nat, sector: seq<Byte>)
    requires Holds(v, image) && PartAt(image, lba, part) && k < |part| && sector == part[k]
    ensures v.Read(lba + k, 1) == Some(sector)
  {
    assert image[lba + k] == part[k];
    SectorReads(v, image, lba + k, sector);
  }

  lemma {:induction false} FlatCut(s: seq<Byte>, n: nat)
    requires |s| == n * SECTOR
    ensures Flat(Cut(s, n)) == s
  {
    if n > 0 {
      var front := s[..(n - 1) * SECTOR];
      FlatCut(front, n - 1);
      assert Cut(s, n)[..n - 1] == Cut(front, n - 1);
      assert front + s[(n - 1) * SECTOR..] == s;
    }
  }

  lemma {:induction false} CutAt(s: seq<Byte>, n: nat, k: nat)
    requires |s| == n * SECTOR && k < n
    ensures Cut(s, n)[k] == s[k * SECTOR..k * SECTOR + SECTOR]
  {
    if k < n - 1 {
      var front := s[..(n - 1) * SECTOR];
      CutAt(front, n - 1, k);
      assert front[k * SECTOR..k * SECTOR + SECTOR] == s[k * SECTOR..k * SECTOR + SECTOR];
    }
  }

  lemma Between(a: seq<Sector>, b: seq<Sector>, c: seq<Sector>)
    ensures PartAt(a + b + c, |a|, b)
  {
  }

  lemma Within(a: seq<Sector>, b: seq<Sector>, lba: nat, part: seq<Sector>)
    requires PartAt(b, lba, part)
    ensures PartAt(a + b, |a| + lba, part)
  {
  }

  // ---------------------------------------------------------------- where the parts are

  lemma {:induction false} FirstTable(p: Plan, n: nat)
    requires n >= 1
    ensures p.perFat <= n * p.perFat && Tables(p, n)[..p.perFat] == Table(p)
  {
    if n == 1 {
      assert Tables(p, 1) == Table(p);
    } else {
      FirstTable(p, n - 1);
      assert Tables(p, n)[..p.perFat] == Tables(p, n - 1)[..p.perFat];
    }
  }

  lemma TableStands(p: Plan)
    requires PlanOk(p)
    ensures PartAt(Image(p), p.reserved, Table(p))
  {
    FirstTable(p, p.fats);
    var tables := Tables(p, p.fats);
    var rest := tables[p.perFat..] + Root(p) + DataSectors(p, p.clusters);
    Between(Front(p), Table(p), rest);
    assert Image(p) == Front(p) + Table(p) + rest;
  }

  ghost function RootAt(p: Plan): nat { p.reserved + p.fats * p.perFat }

  lemma RootStands(p: Plan)
    requires PlanOk(p)
    ensures PartAt(Image(p), RootAt(p), Root(p))
  {
    Between(Front(p) + Tables(p, p.fats), Root(p), DataSectors(p, p.clusters));
  }

  function Cluster(p: Plan, c: nat): (sectors: seq<Sector>)
    ensures |sectors| == p.perCluster
  {
    Cut(ClusterBytes(p.slots, |p.slots|, c, p.perCluster * SECTOR), p.perCluster)
  }

  lemma {:induction false} ClusterStands(p: Plan, n: nat, m: nat)
    requires m < n
    ensures PartAt(DataSectors(p, n), m * p.perCluster, Cluster(p, m + 2))
  {
    var before := DataSectors(p, n - 1);
    assert DataSectors(p, n) == before + Cluster(p, n + 1);
    if m < n - 1 { ClusterStands(p, n - 1, m); }
  }

  /** The sector a cluster begins at. */
  ghost function ClusterAt(p: Plan, c: nat): nat
    requires c >= 2
  {
    RootAt(p) + p.rootEntries / PER_SECTOR + (c - 2) * p.perCluster
  }

  lemma DataStands(p: Plan, c: nat)
    requires PlanOk(p) && 2 <= c < p.clusters + 2
    ensures PartAt(Image(p), ClusterAt(p, c), Cluster(p, c))
  {
    ClusterStands(p, p.clusters, c - 2);
    Within(Front(p) + Tables(p, p.fats) + Root(p), DataSectors(p, p.clusters), (c - 2) * p.perCluster, Cluster(p, c));
  }

  // ---------------------------------------------------------------- the parameter block

  lemma TwoBytes(v: nat, s: seq<Byte>, off: nat)
    requires v < 0x1_0000 && off + 2 <= |s| && s[off] == Little(v, 2)[0] && s[off + 1] == Little(v, 2)[1]
    ensures U16(s, off) == v
  {
    assert Little(v, 2)[1] == Little(v / 256, 1)[0];
  }

  lemma BootFields(p: Plan)
    requires PlanOk(p)
    ensures var s := Boot(p);
            && U16(s, 11) == 512 && s[13] == p.perCluster && U16(s, 14) == p.reserved && s[16] == p.fats
            && U16(s, 17) == p.rootEntries && U16(s, 22) == p.perFat
  {
    TwoBytes(512, Boot(p), 11);
    TwoBytes(p.reserved, Boot(p), 14);
    TwoBytes(p.rootEntries, Boot(p), 17);
    TwoBytes(p.perFat, Boot(p), 22);
  }

  function LayoutFor(p: Plan): Layout
    requires p.perCluster < 256 && p.fats < 256
  {
    Layout(p.perCluster, p.reserved, p.fats, p.rootEntries, p.perFat)
  }

  lemma LayoutReads(v: Volume, p: Plan)
    requires PlanOk(p) && Holds(v, Image(p))
    ensures LayoutOf(v) == Some(LayoutFor(p))
  {
    SectorReads(v, Image(p), 0, Boot(p));
    BootFields(p);
  }

  // ---------------------------------------------------------------- the table

  lemma {:induction false} TableWord(slots: seq<Slot>, n: nat, c: nat)
    requires c < n
    ensures TableBytes(slots, n)[2 * c..2 * c + 2] == Little(Link(slots, |slots|, c), 2)
  {
    var before, word := TableBytes(slots, n - 1), Little(Link(slots, |slots|, n - 1), 2);
    if c < n - 1 {
      TableWord(slots, n - 1, c);
      InFirst(before, word, 2 * c, 2);
    } else {
      Last(before, word);
    }
  }

  lemma {:induction false} LinkIsWord(p: Plan, n: nat, c: nat)
    requires PlanOk(p) && n <= |p.slots|
    ensures Link(p.slots, n, c) < 0x1_0000
  {
    if n > 0 && !Owns(p.slots[n - 1], c) { LinkIsWord(p, n - 1, c); }
    if n > 0 && Owns(p.slots[n - 1], c) { assert SlotOk(p.slots[n - 1], p.perCluster * SECTOR, p.clusters); }
  }

  lemma Halving(c: nat)
    ensures c * 2 / SECTOR == c / 256 && c * 2 % SECTOR == 2 * (c % 256) && c / 256 * SECTOR + 2 * (c % 256) == 2 * c
  {
  }

  /** Where a word of the table stands in its sector. */
  lemma WordInSector(p: Plan, c: nat)
    requires PlanOk(p) && c < p.clusters + 2
    ensures c / 256 < p.perFat && 2 * (c % 256) + 2 <= SECTOR
    ensures U16(Table(p)[c / 256], 2 * (c % 256)) == Link(p.slots, |p.slots|, c)
  {
    var bytes, k, off := TableBytes(p.slots, 256 * p.perFat), c / 256, 2 * (c % 256);
    Halving(c);
    CutAt(bytes, p.perFat, k);
    TableWord(p.slots, 256 * p.perFat, c);
    LinkIsWord(p, |p.slots|, c);
    InSlices(bytes, k * SECTOR, off, Table(p)[k], Little(Link(p.slots, |p.slots|, c), 2));
    TwoBytes(Link(p.slots, |p.slots|, c), Table(p)[k], off);
  }

  lemma InSlices(bytes: seq<Byte>, from: nat, off: nat, sector: seq<Byte>, word: seq<Byte>)
    requires off + 2 <= SECTOR && from + SECTOR <= |bytes| && sector == bytes[from..from + SECTOR]
    requires |word| == 2 && bytes[from + off..from + off + 2] == word
    ensures sector[off] == word[0] && sector[off + 1] == word[1]
  {
    assert word[0] == bytes[from + off..from + off + 2][0] && word[1] == bytes[from + off..from + off + 2][1];
  }

  lemma EntryInSector(v: Volume, layout: Layout, c: nat, sector: seq<Byte>)
    requires v.Read(layout.reserved + c / 256, 1) == Some(sector) && 2 * (c % 256) + 2 <= |sector|
    ensures FatEntry(v, layout, c) == U16(sector, 2 * (c % 256))
  {
    Halving(c);
  }

  lemma TableReads(v: Volume, p: Plan, c: nat)
    requires PlanOk(p) && Holds(v, Image(p)) && c < p.clusters + 2
    ensures FatEntry(v, LayoutFor(p), c) == Link(p.slots, |p.slots|, c)
  {
    TableStands(p);
    WordInSector(p, c);
    SectorOfPart(v, Image(p), p.reserved, Table(p), c / 256, Table(p)[c / 256]);
    EntryInSector(v, LayoutFor(p), c, Table(p)[c / 256]);
  }

  // ---------------------------------------------------------------- the chain of a file

  predicate IsFile(p: Plan, k: nat) { k < |p.slots| && p.slots[k].Used? }

  lemma IndexIs(chain: seq<nat>, i: nat)
    requires i < |chain| && forall a, b :: 0 <= a < b < |chain| ==> chain[a] != chain[b]
    ensures IndexOf(chain, chain[i]) == i
  {
  }

  /** The cluster belongs to the k-th slot alone. */
  lemma OwnedOnce(p: Plan, k: nat, c: nat, j: nat)
    requires PlanOk(p) && IsFile(p, k) && c in p.slots[k].file.chain && j < |p.slots| && j != k
    ensures !Owns(p.slots[j], c)
  {
    if j < k { assert Apart(p.slots[j], p.slots[k]); } else { assert Apart(p.slots[k], p.slots[j]); }
    assert Owns(p.slots[k], c);
  }

  lemma {:induction false} LinkIs(p: Plan, n: nat, k: nat, i: nat)
    requires PlanOk(p) && IsFile(p, k) && k < n <= |p.slots| && i < |p.slots[k].file.chain|
    ensures var chain := p.slots[k].file.chain;
            Link(p.slots, n, chain[i]) == if i + 1 < |chain| then chain[i + 1] else 0xFFFF
  {
    var chain := p.slots[k].file.chain;
    if n - 1 == k {
      assert SlotOk(p.slots[k], p.perCluster * SECTOR, p.clusters);
      IndexIs(chain, i);
    } else {
      OwnedOnce(p, k, chain[i], n - 1);
      LinkIs(p, n - 1, k, i);
    }
  }

  lemma {:induction false} BytesAreOf(p: Plan, n: nat, k: nat, i: nat, size: nat)
    requires PlanOk(p) && IsFile(p, k) && k < n <= |p.slots| && i < |p.slots[k].file.chain|
    ensures var f := p.slots[k].file;
            ClusterBytes(p.slots, n, f.chain[i], size) == Piece(f.data, i * size, size)
  {
    var chain := p.slots[k].file.chain;
    if n - 1 == k {
      assert SlotOk(p.slots[k], p.perCluster * SECTOR, p.clusters);
      IndexIs(chain, i);
    } else {
      OwnedOnce(p, k, chain[i], n - 1);
      BytesAreOf(p, n - 1, k, i, size);
    }
  }

  // ---------------------------------------------------------------- the data of a file

  lemma LayoutPlaces(p: Plan, c: nat)
    requires PlanOk(p) && c >= 2 && ClusterAt(p, c) < WORD
    ensures LayoutFor(p).RootLba() == RootAt(p) && LayoutFor(p).RootSectors() == p.rootEntries / PER_SECTOR
    ensures LayoutFor(p).ClusterLba(c) == ClusterAt(p, c)
  {
    assert p.rootEntries * ENTRY / SECTOR == p.rootEntries / PER_SECTOR;
    Wraps(ClusterAt(p, c));
  }

  lemma ClusterReads(v: Volume, p: Plan, k: nat, i: nat, c: nat, from: nat, size: nat)
    requires PlanOk(p) && Holds(v, Image(p)) && IsFile(p, k) && size == p.perCluster * SECTOR && from == i * size
    requires i < |p.slots[k].file.chain| && c == p.slots[k].file.chain[i]
    ensures v.Read(LayoutFor(p).ClusterLba(c), p.perCluster) == Some(Piece(p.slots[k].file.data, from, size))
  {
    assert SlotOk(p.slots[k], size, p.clusters);
    DataStands(p, c);
    LayoutPlaces(p, c);
    PartReads(v, Image(p), ClusterAt(p, c), Cluster(p, c));
    FlatCut(ClusterBytes(p.slots, |p.slots|, c, size), p.perCluster);
    BytesAreOf(p, |p.slots|, k, i, size);
  }

  /** These clusters hold the data one piece after another. */
  ghost predicate Stores(clusters: Clusters, chain: seq<nat>, data: seq<Byte>) {
    forall i :: 0 <= i < |chain| ==> StoresAt(clusters, chain, data, i)
  }

  ghost predicate StoresAt(clusters: Clusters, chain: seq<nat>, data: seq<Byte>, i: nat)
    requires i < |chain|
  {
    && clusters.read(chain[i]) == Some(Piece(data, i * clusters.size, clusters.size))
    && chain[i] < END_OF_CHAIN && (i + 1 < |chain| ==> clusters.next(chain[i]) == chain[i + 1])
  }

  lemma {:induction false} ChainFollowed(clusters: Clusters, chain: seq<nat>, data: seq<Byte>, n: nat)
    requires Stores(clusters, chain, data) && n <= |chain| && chain != []
    ensures clusters.Reaches(chain[0], n) && (n < |chain| ==> clusters.At(chain[0], n) == chain[n])
  {
    if n > 0 {
      ChainFollowed(clusters, chain, data, n - 1);
      assert StoresAt(clusters, chain, data, n - 1);
    }
  }

  lemma {:induction false} PiecesJoin(clusters: Clusters, chain: seq<nat>, data: seq<Byte>, n: nat)
    requires Stores(clusters, chain, data) && n <= |chain| && chain != [] && clusters.Reaches(chain[0], n)
    requires (|chain| - 1) * clusters.size < |data|
    ensures var contents, m := clusters.Contents(chain[0], n), n * clusters.size;
            |contents| == m && if m < |data| then contents == data[..m] else contents[..|data|] == data
  {
    if n > 0 {
      ChainFollowed(clusters, chain, data, n - 1);
      PiecesJoin(clusters, chain, data, n - 1);
      assert StoresAt(clusters, chain, data, n - 1);
      Times(n - 1, |chain| - 1, clusters.size);
      OnePiece(data, (n - 1) * clusters.size, clusters.size);
      Distribute(n - 1, clusters.size);
      assert clusters.Contents(chain[0], n)
          == clusters.Contents(chain[0], n - 1) + Piece(data, (n - 1) * clusters.size, clusters.size);
    }
  }

  lemma OnePiece(data: seq<Byte>, from: nat, size: nat)
    requires from < |data|
    ensures var s := data[..from] + Piece(data, from, size);
            if from + size < |data| then s == data[..from + size] else s[..|data|] == data
  {
  }

  /** The least number of clusters that hold the data. */
  lemma ChainIsNeeded(size: nat, clusterBytes: nat, n: nat)
    requires 0 < clusterBytes && size <= n * clusterBytes && (n - 1) * clusterBytes < size && n > 0
    ensures ClustersFor(size, clusterBytes) == n
  {
    ClustersForIsLeast(size, clusterBytes, n);
    ClustersForIsLeast(size, clusterBytes, n - 1);
  }

  // ---------------------------------------------------------------- the root directory

  /** The k-th entry of the root directory. */
  function Entry(slots: seq<Slot>, k: nat): DirEntry
    requires EntriesOk(slots)
  {
    if k < |slots| then SlotBytes(slots[k]) else seq(ENTRY, _ => 0)
  }

  lemma {:induction false} EntryStands(slots: seq<Slot>, n: nat, k: nat, from: nat)
    requires EntriesOk(slots) && k < n && from == ENTRY * k
    ensures from + ENTRY <= |RootBytes(slots, n)| && RootBytes(slots, n)[from..from + ENTRY] == Entry(slots, k)
  {
    var before := RootBytes(slots, n - 1);
    assert RootBytes(slots, n) == before + Entry(slots, n - 1);
    if k < n - 1 {
      EntryStands(slots, n - 1, k, from);
      InFirst(before, Entry(slots, n - 1), from, ENTRY);
    } else {
      Last(before, Entry(slots, k));
    }
  }

  lemma InFirst(a: seq<Byte>, b: seq<Byte>, from: nat, n: nat)
    requires from + n <= |a|
    ensures (a + b)[from..from + n] == a[from..from + n]
  {
  }

  lemma Last(a: seq<Byte>, b: seq<Byte>)
    ensures (a + b)[|a|..|a| + |b|] == b
  {
  }

  lemma PlannedSlots(p: Plan)
    requires PlanOk(p)
    ensures EntriesOk(p.slots)
  {
    forall k | 0 <= k < |p.slots| ensures EntryOk(p.slots[k]) {
      assert SlotOk(p.slots[k], p.perCluster * SECTOR, p.clusters);
    }
  }

  /** The `n` entries from number `from` on. */
  function Entries(slots: seq<Slot>, from: nat, n: nat): (entries: seq<DirEntry>)
    requires EntriesOk(slots)
    ensures |entries| == n && forall k :: 0 <= k < n ==> entries[k] == Entry(slots, from + k)
  {
    if n == 0 then [] else Entries(slots, from, n - 1) + [Entry(slots, from + (n - 1))]
  }

  lemma SliceOfSlice(s: seq<Byte>, from: nat, n: nat, off: nat, m: nat)
    requires from + n <= |s| && off + m <= n
    ensures s[from..from + n][off..off + m] == s[from + off..from + off + m]
  {
    var t, u := s[from..from + n][off..off + m], s[from + off..from + off + m];
    assert |t| == |u| && forall i :: 0 <= i < m ==> t[i] == u[i];
  }

  lemma SectorEntry(slots: seq<Slot>, n: nat, s: nat, i: nat, sector: seq<Byte>)
    requires EntriesOk(slots) && s * PER_SECTOR + i < n && i < PER_SECTOR
    requires s * SECTOR + SECTOR <= n * ENTRY && sector == RootBytes(slots, n)[s * SECTOR..s * SECTOR + SECTOR]
    ensures EntryIn(sector, i) == Entry(slots, s * PER_SECTOR + i)
  {
    var bytes, from := RootBytes(slots, n), s * SECTOR + ENTRY * i;
    EntryStands(slots, n, s * PER_SECTOR + i, from);
    SliceOfSlice(bytes, s * SECTOR, SECTOR, ENTRY * i, ENTRY);
    assert EntryIn(sector, i) == bytes[from..from + ENTRY];
  }

  lemma SectorEntries(p: Plan, s: nat)
    requires PlanOk(p) && EntriesOk(p.slots) && s < p.rootEntries / PER_SECTOR
    ensures EntriesOf(Root(p)[s]) == Entries(p.slots, s * PER_SECTOR, PER_SECTOR)
  {
    CutAt(RootBytes(p.slots, p.rootEntries), p.rootEntries / PER_SECTOR, s);
    forall i | 0 <= i < PER_SECTOR ensures EntriesOf(Root(p)[s])[i] == Entries(p.slots, s * PER_SECTOR, PER_SECTOR)[i] {
      SectorEntry(p.slots, p.rootEntries, s, i, Root(p)[s]);
    }
  }

  /** One sector of the root directory is read. */
  lemma RootSectorReads(v: Volume, p: Plan, s: nat, sector: seq<Byte>)
    requires PlanOk(p) && Holds(v, Image(p)) && s < p.rootEntries / PER_SECTOR && sector == Root(p)[s]
    ensures v.Read(LayoutFor(p).RootLba() + s, 1) == Some(sector)
  {
    RootStands(p);
    SectorOfPart(v, Image(p), RootAt(p), Root(p), s, sector);
  }

  lemma MoreEntries(slots: seq<Slot>, n: nat)
    requires EntriesOk(slots)
    ensures Entries(slots, 0, (n + 1) * PER_SECTOR) ==
            Entries(slots, 0, n * PER_SECTOR) + Entries(slots, n * PER_SECTOR, PER_SECTOR)
  {
    var all, before := Entries(slots, 0, (n + 1) * PER_SECTOR), Entries(slots, 0, n * PER_SECTOR);
    var here := Entries(slots, n * PER_SECTOR, PER_SECTOR);
    forall k | 0 <= k < (n + 1) * PER_SECTOR ensures all[k] == (before + here)[k] {
      if k >= n * PER_SECTOR { assert here[k - n * PER_SECTOR] == Entry(slots, k); }
    }
  }

  /** Sector s of the root directory holds its entries. */
  ghost predicate Lists(v: Volume, layout: Layout, slots: seq<Slot>, s: nat)
    requires EntriesOk(slots)
  {
    var got := v.Read(layout.RootLba() + s, 1);
    got.Some? && EntriesOf(got.value) == Entries(slots, s * PER_SECTOR, PER_SECTOR)
  }

  /** The first n sectors do. */
  ghost predicate AllList(v: Volume, layout: Layout, slots: seq<Slot>, n: nat)
    requires EntriesOk(slots)
  {
    n == 0 || (AllList(v, layout, slots, n - 1) && Lists(v, layout, slots, n - 1))
  }

  lemma {:induction false} ListingIs(v: Volume, layout: Layout, slots: seq<Slot>, n: nat)
    requires EntriesOk(slots) && AllList(v, layout, slots, n)
    ensures Listing(v, layout, n) == Entries(slots, 0, n * PER_SECTOR)
  {
    if n > 0 {
      ListingIs(v, layout, slots, n - 1);
      OneMoreSector(v, layout, slots, n - 1);
    }
  }

  lemma OneMoreSector(v: Volume, layout: Layout, slots: seq<Slot>, n: nat)
    requires EntriesOk(slots) && Lists(v, layout, slots, n)
    requires Listing(v, layout, n) == Entries(slots, 0, n * PER_SECTOR)
    ensures Listing(v, layout, n + 1) == Entries(slots, 0, (n + 1) * PER_SECTOR)
  {
    ListingStep(v, layout, n, v.Read(layout.RootLba() + n, 1).value);
    MoreEntries(slots, n);
  }

  lemma ListingStep(v: Volume, layout: Layout, n: nat, sector: seq<Byte>)
    requires |Listing(v, layout, n)| == n * PER_SECTOR && v.Read(layout.RootLba() + n, 1) == Some(sector)
    ensures Listing(v, layout, n + 1) == Listing(v, layout, n) + EntriesOf(sector)
  {
  }

  lemma {:induction false} RootLists(v: Volume, p: Plan, layout: Layout, n: nat)
    requires PlanOk(p) && EntriesOk(p.slots) && Holds(v, Image(p)) && layout == LayoutFor(p)
    requires n <= p.rootEntries / PER_SECTOR
    ensures AllList(v, layout, p.slots, n)
  {
    if n > 0 {
      RootLists(v, p, layout, n - 1);
      RootSectorReads(v, p, n - 1, Root(p)[n - 1]);
      SectorEntries(p, n - 1);
    }
  }

  lemma RootIs(v: Volume, p: Plan, layout: Layout)
    requires PlanOk(p) && EntriesOk(p.slots) && Holds(v, Image(p)) && layout == LayoutFor(p)
    ensures Listing(v, layout, layout.RootSectors()) == Entries(p.slots, 0, p.rootEntries)
  {
    var n := p.rootEntries / PER_SECTOR;
    assert layout.RootSectors() == n && n * PER_SECTOR == p.rootEntries;
    RootLists(v, p, layout, n);
    ListingIs(v, layout, p.slots, n);
  }

  // ---------------------------------------------------------------- names

  lemma {:induction false} TrimPadded(s: seq<Byte>, n: nat)
    requires |s| <= n && PartOk(s)
    ensures TrimEnd(Padded(s, n, SPACE)) == s
    decreases n
  {
    var t := Padded(s, n, SPACE);
    if n == |s| {
      assert t == s;
    } else {
      TrimPadded(s, n - 1);
      assert t[..n - 1] == Padded(s, n - 1, SPACE);
    }
  }

  lemma EntryFields(f: File)
    requires NameOk(f)
    ensures var e := SlotBytes(Used(f));
            && e[..8] == Padded(f.name, 8, SPACE) && e[8..11] == Padded(f.ext, 3, SPACE)
            && e[26..28] == Little(if f.chain == [] then 0 else f.chain[0], 2) && e[28..32] == Little(|f.data|, 4)
  {
  }

  lemma {:induction false} NoZero(s: seq<Byte>)
    requires 0 !in s
    ensures UpToZero(s) == s
  {
  }

  lemma NameReads(f: File)
    requires NameOk(f)
    ensures UpToZero(ShortName(SlotBytes(Used(f)))) == FileName(f)
    ensures SlotBytes(Used(f))[0] != 0 && SlotBytes(Used(f))[0] != DELETED
  {
    EntryFields(f);
    TrimPadded(f.name, 8);
    TrimPadded(f.ext, 3);
    NoZero(FileName(f));
  }

  /** An entry is live under a name exactly when its slot is a file of that name. */
  lemma LiveIff(slots: seq<Slot>, k: nat, name: seq<Byte>)
    requires EntriesOk(slots)
    ensures Live(Entry(slots, k), name) <==> k < |slots| && slots[k].Used? && FileName(slots[k].file) == name
    ensures Entry(slots, k)[0] != 0 <==> k < |slots|
  {
    if k < |slots| && slots[k].Used? { NameReads(slots[k].file); }
  }

  lemma NamesIff(p: Plan, name: seq<Byte>, k: nat)
    requires PlanOk(p) && EntriesOk(p.slots)
    ensures Names(Entries(p.slots, 0, p.rootEntries), name, k) <==> IsFile(p, k) && FileName(p.slots[k].file) == name
  {
    var entries := Entries(p.slots, 0, p.rootEntries);
    LiveIff(p.slots, k, name);
    if IsFile(p, k) && FileName(p.slots[k].file) == name {
      forall j | 0 <= j < k ensures entries[j][0] != 0 && !Live(entries[j], name) {
        LiveIff(p.slots, j, name);
        assert Apart(p.slots[j], p.slots[k]);
      }
    }
  }

  // ---------------------------------------------------------------- reading a written volume

  lemma FourBytes(v: nat, s: seq<Byte>)
    requires v < WORD && |s| == ENTRY && s[28..32] == Little(v, 4)
    ensures U32(s, 28) == v
  {
    var t := Little(v, 4);
    assert t[1..] == Little(v / 256, 3) && t[2..] == Little(v / 256 / 256, 2);
    assert t[3..] == Little(v / 256 / 256 / 256, 1);
    assert s[28] == t[0] && s[29] == t[1] && s[30] == t[2] && s[31] == t[3];
  }

  lemma EntryReads(f: File)
    requires NameOk(f) && |f.data| < WORD && (f.chain != [] ==> f.chain[0] < 0x1_0000)
    ensures StartOf(SlotBytes(Used(f))) == (if f.chain == [] then 0 else f.chain[0])
    ensures SizeOf(SlotBytes(Used(f))) == |f.data|
  {
    EntryFields(f);
    var e, start := SlotBytes(Used(f)), if f.chain == [] then 0 else f.chain[0];
    assert e[26] == e[26..28][0] && e[27] == e[26..28][1];
    TwoBytes(start, e, 26);
    FourBytes(|f.data|, e);
  }

  /** A chain is never too long for 32 bits. */
  lemma SizeFits(f: File, perCluster: nat, clusters: nat, size: nat)
    requires ChainOk(f, size, clusters) && size == perCluster * SECTOR && perCluster <= 64 && clusters <= END_OF_CHAIN
    ensures |f.data| + size < WORD
  {
    Times(|f.chain|, END_OF_CHAIN, size);
  }

  lemma PieceStored(v: Volume, p: Plan, k: nat, i: nat, chain: seq<nat>, data: seq<Byte>, clusters: Clusters)
    requires PlanOk(p) && Holds(v, Image(p)) && IsFile(p, k) && i < |chain| && clusters == ClustersOf(v, LayoutFor(p))
    requires chain == p.slots[k].file.chain && data == p.slots[k].file.data
    ensures StoresAt(clusters, chain, data, i)
  {
    var c, size := chain[i], p.perCluster * SECTOR;
    assert SlotOk(p.slots[k], size, p.clusters);
    ClusterReads(v, p, k, i, c, i * size, size);
    TableReads(v, p, c);
    LinkIs(p, |p.slots|, k, i);
    OfLayout(v, LayoutFor(p), c);
  }

  lemma OfLayout(v: Volume, layout: Layout, c: nat)
    ensures var clusters := ClustersOf(v, layout);
            && clusters.read(c) == v.Read(layout.ClusterLba(c), layout.sectorsPerCluster)
            && clusters.next(c) == FatEntry(v, layout, c) && clusters.size == layout.sectorsPerCluster * SECTOR
  {
  }

  lemma FileStored(v: Volume, p: Plan, k: nat, clusters: Clusters)
    requires PlanOk(p) && Holds(v, Image(p)) && IsFile(p, k) && clusters == ClustersOf(v, LayoutFor(p))
    ensures Stores(clusters, p.slots[k].file.chain, p.slots[k].file.data)
  {
    var f := p.slots[k].file;
    forall i | 0 <= i < |f.chain| ensures StoresAt(clusters, f.chain, f.data, i) {
      PieceStored(v, p, k, i, f.chain, f.data, clusters);
    }
  }

  /** The path of a file that is not empty. */
  ghost predicate IsPath(p: Plan, path: seq<Byte>, k: nat) {
    IsFile(p, k) && p.slots[k].file.data != [] && path == [SLASH] + FileName(p.slots[k].file)
  }

  /** Following a stored chain gives the data, and nothing else is the file. */
  lemma StoredReads(clusters: Clusters, chain: seq<nat>, data: seq<Byte>)
    requires Stores(clusters, chain, data) && chain != [] && 0 < clusters.size
    requires (|chain| - 1) * clusters.size < |data| <= |chain| * clusters.size
    ensures clusters.Reaches(chain[0], ClustersFor(|data|, clusters.size))
    ensures forall d :: FileIs(clusters, chain[0], |data|, d) ==> d == data
  {
    ChainIsNeeded(|data|, clusters.size, |chain|);
    ChainFollowed(clusters, chain, data, |chain|);
    PiecesJoin(clusters, chain, data, |chain|);
  }

  lemma PathOk(f: File, path: seq<Byte>)
    requires NameOk(f) && path == [SLASH] + FileName(f)
    ensures path != [] && path[0] == SLASH && path[1..] == FileName(f) && SLASH !in path[1..] && 0 !in path
  {
  }

  /** What the k-th entry says, for the file in the k-th slot. */
  lemma SlotReads(v: Volume, p: Plan, k: nat, entries: seq<DirEntry>)
    requires PlanOk(p) && EntriesOk(p.slots) && IsFile(p, k) && entries == Entries(p.slots, 0, p.rootEntries)
    ensures var f := p.slots[k].file;
            && k < |entries| && SizeOf(entries[k]) == |f.data| && |f.data| + p.perCluster * SECTOR < WORD
            && (f.data != [] ==> f.chain != [] && StartOf(entries[k]) == f.chain[0])
  {
    var f, size := p.slots[k].file, p.perCluster * SECTOR;
    assert SlotOk(p.slots[k], size, p.clusters);
    SizeFits(f, p.perCluster, p.clusters, size);
    EntryReads(f);
    assert entries[k] == Entry(p.slots, 0 + k);
  }

  /** The chain of a file that is not empty gives its data. */
  lemma FileReads(v: Volume, p: Plan, k: nat, clusters: Clusters)
    requires PlanOk(p) && Holds(v, Image(p)) && IsFile(p, k) && p.slots[k].file.data != []
    requires clusters == ClustersOf(v, LayoutFor(p))
    ensures var f := p.slots[k].file;
            && f.chain != [] && 0 < clusters.size == p.perCluster * SECTOR
            && clusters.Reaches(f.chain[0], ClustersFor(|f.data|, clusters.size))
            && forall d :: FileIs(clusters, f.chain[0], |f.data|, d) ==> d == f.data
  {
    var f := p.slots[k].file;
    assert SlotOk(p.slots[k], p.perCluster * SECTOR, p.clusters);
    FileStored(v, p, k, clusters);
    OfLayout(v, LayoutFor(p), 0);
    StoredReads(clusters, f.chain, f.data);
  }

  /** A file that was written is there and is what was written. */
  lemma PathReads(v: Volume, p: Plan, path: seq<Byte>, k: nat, layout: Layout)
    requires PlanOk(p) && Holds(v, Image(p)) && IsPath(p, path, k) && layout == LayoutFor(p)
    ensures Reads(v, path, layout, k)
    ensures var entry := Listing(v, layout, layout.RootSectors())[k];
            forall d :: FileIs(ClustersOf(v, layout), StartOf(entry), SizeOf(entry), d) ==> d == p.slots[k].file.data
  {
    var f := p.slots[k].file;
    PlannedSlots(p);
    LayoutReads(v, p);
    RootIs(v, p, LayoutFor(p));
    NamesIff(p, FileName(f), k);
    assert SlotOk(p.slots[k], p.perCluster * SECTOR, p.clusters);
    PathOk(f, path);
    SlotReads(v, p, k, Entries(p.slots, 0, p.rootEntries));
    FileReads(v, p, k, ClustersOf(v, layout));
  }

  /** Nothing is there but what was written. */
  lemma OnlyPathsRead(v: Volume, p: Plan, path: seq<Byte>, layout: Layout, k: nat)
    requires PlanOk(p) && Holds(v, Image(p)) && Reads(v, path, layout, k)
    ensures IsPath(p, path, k) && layout == LayoutFor(p)
  {
    PlannedSlots(p);
    LayoutReads(v, p);
    RootIs(v, p, LayoutFor(p));
    NamesIff(p, path[1..], k);
    SlotReads(v, p, k, Entries(p.slots, 0, p.rootEntries));
    assert path == [SLASH] + path[1..];
  }

  lemma NothingThere(v: Volume, p: Plan, path: seq<Byte>, k: nat)
    requires PlanOk(p) && Holds(v, Image(p)) && !Reads(v, path, LayoutFor(p), k)
    ensures !IsPath(p, path, k)
  {
    if IsPath(p, path, k) { PathReads(v, p, path, k, LayoutFor(p)); }
  }

  /** Main result: reading a volume that was written gives back the file of a path, whatever clusters
      it was put into, and nothing for a path that no file has. */
  method ReadWritten(v: Volume, ghost p: Plan, path: seq<Byte>) returns (data: array?<Byte>, ghost k: nat)
    requires PlanOk(p) && Holds(v, Image(p)) && 0 !in path
    ensures data != null ==> IsPath(p, path, k) && data[..] == p.slots[k].file.data
    ensures data == null ==> forall j: nat :: !IsPath(p, path, j)
  {
    ghost var layout;
    data, layout, k := ReadFile(v, path);
    if data != null {
      OnlyPathsRead(v, p, path, layout, k);
      PathReads(v, p, path, k, layout);
    } else {
      forall j: nat ensures !IsPath(p, path, j) { NothingThere(v, p, path, j); }
    }
  }

  /** A path is that of one file. */
  lemma OnePath(p: Plan, path: seq<Byte>, j: nat, k: nat)
    requires PlanOk(p) && IsPath(p, path, j) && IsPath(p, path, k)
    ensures j == k
  {
    assert FileName(p.slots[j].file) == path[1..] == FileName(p.slots[k].file);
  }

  // ---------------------------------------------------------------- one file after another

  function Needed(size: nat, clusterBytes: nat): nat
    requires 0 < clusterBytes
  {
    if size == 0 then 0 else if size <= clusterBytes then 1 else 1 + Needed(size - clusterBytes, clusterBytes)
  }

  function Following(first: nat, n: nat): (chain: seq<nat>)
    ensures |chain| == n && forall i :: 0 <= i < n ==> chain[i] == first + i
  {
    if n == 0 then [] else Following(first, n - 1) + [first + (n - 1)]
  }

  /** Each file gets the clusters behind those of the file before it. */
  function Allocate(files: seq<File>, clusterBytes: nat, first: nat): (slots: seq<Slot>)
    requires 0 < clusterBytes
    ensures |slots| == |files|
  {
    if files == [] then []
    else
      var n := Needed(|files[0].data|, clusterBytes);
      [Used(files[0].(chain := Following(first, n)))] + Allocate(files[1..], clusterBytes, first + n)
  }

  function TotalNeeded(files: seq<File>, clusterBytes: nat): nat
    requires 0 < clusterBytes
  {
    if files == [] then 0 else Needed(|files[0].data|, clusterBytes) + TotalNeeded(files[1..], clusterBytes)
  }

  lemma {:induction false} NeededHolds(size: nat, clusterBytes: nat)
    requires 0 < clusterBytes
    ensures var n := Needed(size, clusterBytes); size <= n * clusterBytes && (n > 0 ==> (n - 1) * clusterBytes < size)
    decreases size
  {
    if size > clusterBytes {
      NeededHolds(size - clusterBytes, clusterBytes);
      var m := Needed(size - clusterBytes, clusterBytes);
      Distribute(m, clusterBytes);
      Distribute(m - 1, clusterBytes);
    }
  }

  lemma FollowingOk(f: File, clusterBytes: nat, first: nat, clusters: nat)
    requires 0 < clusterBytes && first >= 2 && first + Needed(|f.data|, clusterBytes) <= clusters + 2
    ensures ChainOk(f.(chain := Following(first, Needed(|f.data|, clusterBytes))), clusterBytes, clusters)
  {
    NeededHolds(|f.data|, clusterBytes);
  }

  /** The file and the clusters of one slot. */
  lemma {:induction false} AllocatedAt(files: seq<File>, clusterBytes: nat, first: nat, clusters: nat, k: nat)
    requires 0 < clusterBytes && first >= 2 && first + TotalNeeded(files, clusterBytes) <= clusters + 2 && k < |files|
    ensures var slot := Allocate(files, clusterBytes, first)[k];
            && slot.Used? && slot.file == files[k].(chain := slot.file.chain)
            && ChainOk(slot.file, clusterBytes, clusters)
            && forall c :: c in slot.file.chain ==> first <= c
    decreases k
  {
    var n := Needed(|files[0].data|, clusterBytes);
    if k == 0 {
      FollowingOk(files[0], clusterBytes, first, clusters);
    } else {
      AllocatedAt(files[1..], clusterBytes, first + n, clusters, k - 1);
    }
  }

  lemma {:induction false} AllocatedApart(files: seq<File>, clusterBytes: nat, first: nat, clusters: nat, j: nat,
          k: nat)
    requires 0 < clusterBytes && first >= 2 && first + TotalNeeded(files, clusterBytes) <= clusters + 2
    requires j < k < |files|
    ensures var slots := Allocate(files, clusterBytes, first); Disjoint(slots[j], slots[k])
    decreases j
  {
    var n := Needed(|files[0].data|, clusterBytes);
    var slots, rest := Allocate(files, clusterBytes, first), Allocate(files[1..], clusterBytes, first + n);
    assert slots[k] == rest[k - 1];
    if j == 0 {
      AllocatedAt(files[1..], clusterBytes, first + n, clusters, k - 1);
      assert slots[0] == Used(files[0].(chain := Following(first, n)));
      FollowingBelow(first, n, slots[0], slots[k]);
    } else {
      assert slots[j] == rest[j - 1];
      AllocatedApart(files[1..], clusterBytes, first + n, clusters, j - 1, k - 1);
    }
  }

  lemma FollowingBelow(first: nat, n: nat, a: Slot, b: Slot)
    requires a.Used? && a.file.chain == Following(first, n) && b.Used?
    requires forall c :: c in b.file.chain ==> first + n <= c
    ensures Disjoint(a, b)
  {
  }

  predicate SameFile(f: File, g: File) { f == g.(chain := f.chain) }

  /** Files of different names can be written one after another whenever there is room for them. */
  lemma {:induction false} OneAfterAnother(p: Plan, files: seq<File>)
    requires PlanOk(p.(slots := [])) && p.slots == Allocate(files, p.perCluster * SECTOR, 2)
    requires |files| <= p.rootEntries && TotalNeeded(files, p.perCluster * SECTOR) <= p.clusters
    requires forall k :: 0 <= k < |files| ==> NameOk(files[k])
    requires forall j, k :: 0 <= j < k < |files| ==> FileName(files[j]) != FileName(files[k])
    ensures PlanOk(p)
    ensures forall k :: 0 <= k < |files| ==> p.slots[k].Used? && SameFile(p.slots[k].file, files[k])
  {
    var size := p.perCluster * SECTOR;
    forall k | 0 <= k < |files|
      ensures SlotOk(p.slots[k], size, p.clusters) && p.slots[k].Used? && SameFile(p.slots[k].file, files[k])
    {
      AllocatedAt(files, size, 2, p.clusters, k);
    }
    forall j, k | 0 <= j < k < |files| ensures Apart(p.slots[j], p.slots[k]) {
      AllocatedApart(files, size, 2, p.clusters, j, k);
    }
  }
}
