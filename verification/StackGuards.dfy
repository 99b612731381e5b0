/** The stack guards of src/c/process.c: pages below and above every process stack are taken
    out of the page tables (section 4.5 of the Intel SDM volume 3A), splitting 2MB pages into
    4KB pages where needed. Addresses are numbers of 4KB pages, of 36 bits: no page beyond
    is mapped. `l` is a number of a 2MB page and `u` of a 1GB region. */
module StackGuards {

  const TABLE: nat := 512
  const PT_POOL_COUNT: nat := 8
  const PROCESS_COUNT: nat := 4
  const GUARD_PAGES: nat := 16    // STACK_GUARD_SIZE, 64KB
  const STACK_PAGES: nat := 64    // STACK_SIZE, 256KB
  const SLOT_PAGES: nat := 80
  const AREA_PAGES: nat := 336

  /** A page-table entry. `large` is the PS bit of an upper entry; `pat` is bit 12 of a large
      page's entry and bit 7 of a 4KB page's; `flags` are the other attribute bits set. */
  datatype Entry = Entry(frame: nat, present: bool, large: bool, pat: bool, flags: set<nat>)

  type Table = t: seq<Entry> | |t| == TABLE witness seq(TABLE, _ => Entry(0, false, false, false, {}))

  /** What the two upper levels lead to. */
  datatype Top = Nothing | Huge(entry: Entry, above: Entry) | Directory(frame: nat, all: set<nat>, any: set<nat>)

  /** Where a page is mapped: the frame, the attributes in the last entry, and the bits set
      in all and in any of the entries on the way. */
  datatype Mapping = Unmapped | Mapped(frame: nat, pat: bool, leaf: set<nat>, all: set<nat>, any: set<nat>)

  /** A mapping without its PAT bit. */
  function Plain(m: Mapping): Mapping { if m.Mapped? then m.(pat := false) else m }

  datatype Option<T> = None | Some(value: T)

  /** The page tables: the two upper levels, which nothing writes to, and the directories and
      page tables by the frame they are in. */
  datatype Space = Space(pml4: Table, pdpts: map<nat, Table>, memory: map<nat, Table>)
  {
    function Upper(u: nat): Top {
      if u / TABLE >= TABLE then Nothing
      else
        var e4 := pml4[u / TABLE];
        if !e4.present || e4.frame !in pdpts then Nothing
        else
          var e3 := pdpts[e4.frame][u % TABLE];
          if !e3.present then Nothing
          else if e3.large then Huge(e3, e4)
          else if e3.frame !in memory then Nothing
          else Directory(e3.frame, e4.flags * e3.flags, e4.flags + e3.flags)
    }

    /** The directory entry of a 2MB page. */
    function Pde(l: nat): Option<Entry> {
      var top := Upper(l / TABLE);
      if top.Directory? && top.frame in memory then Some(memory[top.frame][l % TABLE]) else None
    }

    predicate IsLarge(l: nat) { Pde(l).Some? && Pde(l).value.present && Pde(l).value.large }

    /** The page table of a 2MB page that is divided into 4KB pages. */
    function TableOf(l: nat): Option<nat> {
      if Pde(l).Some? && Pde(l).value.present && !Pde(l).value.large then Some(Pde(l).value.frame) else None
    }

    /** The page walk of the processor. */
    function Walk(p: nat): Mapping {
      var l := p / TABLE;
      var top := Upper(l / TABLE);
      if top.Huge? then
        Mapped(top.entry.frame + p % (TABLE * TABLE), top.entry.pat, top.entry.flags,
               top.above.flags * top.entry.flags, top.above.flags + top.entry.flags)
      else if Pde(l).None? || !Pde(l).value.present then Unmapped
      else
        var pde := Pde(l).value;
        if pde.large then
          Mapped(pde.frame + p % TABLE, pde.pat, pde.flags, top.all * pde.flags, top.any + pde.flags)
        else if pde.frame !in memory || !memory[pde.frame][p % TABLE].present then Unmapped
        else
          var pte := memory[pde.frame][p % TABLE];
          Mapped(pte.frame, pte.pat, pte.flags, top.all * pde.flags * pte.flags, top.any + pde.flags + pte.flags)
    }

    /** No table is reached in two ways. */
    ghost predicate Tree() {
      && (forall u: nat, v: nat :: Upper(u).Directory? && Upper(v).Directory? && Upper(u).frame == Upper(v).frame ==>
         u == v)
      && (forall l: nat, m: nat :: TableOf(l).Some? && TableOf(l) == TableOf(m) ==> l == m)
      && (forall u: nat, l: nat :: Upper(u).Directory? && TableOf(l).Some? ==> Upper(u).frame != TableOf(l).value)
      && (forall l: nat :: TableOf(l).Some? ==> TableOf(l).value in memory)
    }

    /** A table outside the tree. */
    ghost predicate Unused(frame: nat) {
      && frame in memory
      && (forall u: nat :: Upper(u).Directory? ==> Upper(u).frame != frame)
      && (forall l: nat :: TableOf(l).Some? ==> TableOf(l).value != frame)
    }

    /** A large page maps itself. */
    predicate Identity(l: nat) {
      Pde(l).Some? && Pde(l).value.present && (IsLarge(l) ==> Pde(l).value.frame == l * TABLE)
    }

    function WithMemory(frame: nat, table: Table): Space { this.(memory := memory[frame := table]) }

    lemma UpperStays(frame: nat, table: Table)
      requires frame in memory
      ensures forall u: nat :: WithMemory(frame, table).Upper(u) == Upper(u)
    {
    }

    /** Writing to an unused table changes no walk. */
    lemma UnusedWrite(frame: nat, table: Table)
      requires Tree() && Unused(frame)
      ensures var s := WithMemory(frame, table);
              && s.Tree() && (forall l: nat :: s.Pde(l) == Pde(l)) && (forall p: nat :: s.Walk(p) == Walk(p))
              && (forall f: nat :: Unused(f) ==> s.Unused(f))
    {
      var s := WithMemory(frame, table);
      UpperStays(frame, table);
      assert forall l: nat :: s.Pde(l) == Pde(l);
      assert forall l: nat :: s.TableOf(l) == TableOf(l);
      forall p: nat ensures s.Walk(p) == Walk(p) {
        assert TableOf(p / TABLE).Some? ==> TableOf(p / TABLE).value != frame;
      }
    }

    function WithPde(l: nat, e: Entry): Space
      requires Pde(l).Some?
    {
      var directory := Upper(l / TABLE).frame;
      WithMemory(directory, memory[directory][l % TABLE := e])
    }

    /** Only the one directory entry changes. */
    lemma PdeWrite(l: nat, e: Entry)
      requires Tree() && Pde(l).Some?
      ensures WithPde(l, e).Pde(l) == Some(e)
      ensures forall m: nat :: m != l ==> WithPde(l, e).Pde(m) == Pde(m)
      ensures forall u: nat :: WithPde(l, e).Upper(u) == Upper(u)
    {
      var s := WithPde(l, e);
      UpperStays(Upper(l / TABLE).frame, s.memory[Upper(l / TABLE).frame]);
      forall m: nat | m != l ensures s.Pde(m) == Pde(m) {
        SameEntry(l, m);
        assert Upper(l / TABLE).Directory?;
        if Upper(m / TABLE).Directory? && Upper(m / TABLE).frame == Upper(l / TABLE).frame {
          assert m / TABLE == l / TABLE;
        }
      }
    }

    /** A directory entry that comes to refer to an unused table leaves the tree a tree. */
    lemma SplitTree(l: nat, t: nat, e: Entry)
      requires Tree() && IsLarge(l) && Unused(t) && e.present && !e.large && e.frame == t
      ensures WithPde(l, e).Tree() && WithPde(l, e).TableOf(l) == Some(t)
      ensures forall m: nat :: m != l ==> WithPde(l, e).TableOf(m) == TableOf(m)
      ensures forall f: nat :: f != t && Unused(f) ==> WithPde(l, e).Unused(f)
    {
      var s := WithPde(l, e);
      PdeWrite(l, e);
      assert forall m: nat :: m != l ==> s.TableOf(m) == TableOf(m);
      assert TableOf(l).None?;
    }

    /** Splitting a large page that maps itself, into 512 pages with its attributes: no page
        is mapped elsewhere or with other attributes, but the PAT bit is lost. */
    lemma SplitWalks(l: nat, t: nat, e: Entry)
      requires Tree() && IsLarge(l) && Identity(l) && Unused(t) && e == Entry(t, true, false, false, Pde(l).value.flags)
      requires memory[t] == SmallPages(l, Pde(l).value.flags)
      ensures forall p: nat :: WithPde(l, e).Walk(p) == if p / TABLE == l then Plain(Walk(p)) else Walk(p)
    {
      var s := WithPde(l, e);
      PdeWrite(l, e);
      SplitTree(l, t, e);
      var directory := Upper(l / TABLE).frame;
      forall p: nat ensures s.Walk(p) == if p / TABLE == l then Plain(Walk(p)) else Walk(p) {
        if p / TABLE == l {
          assert s.memory[t] == memory[t];
          assert p == l * TABLE + p % TABLE;
          Idempotent(Upper(l / TABLE).all, e.flags);
        } else {
          assert s.Pde(p / TABLE) == Pde(p / TABLE);
          assert TableOf(p / TABLE).Some? ==> TableOf(p / TABLE).value != directory;
        }
      }
    }

    /** Clearing the present bit of one 4KB page unmaps that page and no other. */
    lemma ClearWalks(p: nat, e: Entry)
      requires Tree() && TableOf(p / TABLE).Some? && !e.present
      ensures var t := TableOf(p / TABLE).value;
              var s := WithMemory(t, memory[t][p % TABLE := e]);
              && s.Tree() && (forall l: nat :: s.Pde(l) == Pde(l)) && (forall f: nat :: Unused(f) ==> s.Unused(f))
              && (forall q: nat :: s.Walk(q) == if q == p then Unmapped else Walk(q))
    {
      var t := TableOf(p / TABLE).value;
      var s := WithMemory(t, memory[t][p % TABLE := e]);
      UpperStays(t, s.memory[t]);
      forall l: nat ensures s.Pde(l) == Pde(l) {
        assert Upper(l / TABLE).Directory? ==> Upper(l / TABLE).frame != t;
      }
      assert forall l: nat :: s.TableOf(l) == TableOf(l);
      forall q: nat ensures s.Walk(q) == if q == p then Unmapped else Walk(q) {
        assert s.Pde(q / TABLE) == Pde(q / TABLE);
        if q != p {
          SameEntry(q, p);
          assert TableOf(q / TABLE) == Some(t) ==> q / TABLE == p / TABLE;
        }
      }
    }
  }

  /** Different numbers differ in their quotient or in their remainder. */
  lemma SameEntry(a: nat, b: nat)
    ensures a / TABLE == b / TABLE && a % TABLE == b % TABLE ==> a == b
  {
  }

  lemma Idempotent(a: set<nat>, b: set<nat>)
    ensures a * b * b == a * b && a + b + b == a + b
  {
  }

  /** The 512 pages of a 2MB page that maps itself. */
  function SmallPages(l: nat, flags: set<nat>): Table {
    seq(TABLE, j requires 0 <= j < TABLE => Entry(l * TABLE + j, true, false, false, flags))
  }

  // ---------------------------------------------------------------- the stack area

  /** The first page of guard `i`: the guard below stack `i`, and the one above the last. */
  function GuardBase(area: nat, i: nat): nat { area + i * SLOT_PAGES }

  /** The first page of the stack of process `i`. */
  function StackBase(area: nat, i: nat): nat { GuardBase(area, i) + GUARD_PAGES }

  predicate InGuard(area: nat, p: nat) {
    area <= p < area + AREA_PAGES && (p - area) % SLOT_PAGES < GUARD_PAGES
  }

  predicate InGuardNumber(area: nat, i: nat, p: nat) {
    GuardBase(area, i) <= p < GuardBase(area, i) + GUARD_PAGES
  }

  /** Guards are the pages of the five guards; the pages of the four stacks are none. */
  lemma GuardsAndStacks(area: nat, p: nat)
    ensures InGuard(area, p) <==> exists i: nat :: i <= PROCESS_COUNT && InGuardNumber(area, i, p)
    ensures forall i: nat :: i < PROCESS_COUNT && StackBase(area, i) <= p < StackBase(area, i) + STACK_PAGES ==>
            !InGuard(area, p)
  {
    if InGuard(area, p) {
      var i: nat := (p - area) / SLOT_PAGES;
      assert i <= PROCESS_COUNT && InGuardNumber(area, i, p);
    }
    forall i: nat | i <= PROCESS_COUNT && InGuardNumber(area, i, p)
      ensures InGuard(area, p)
    {
      assert i == 0 || i == 1 || i == 2 || i == 3 || i == 4;
    }
    forall i: nat | i < PROCESS_COUNT && StackBase(area, i) <= p < StackBase(area, i) + STACK_PAGES
      ensures !InGuard(area, p)
    {
      assert i == 0 || i == 1 || i == 2 || i == 3;
    }
  }

  /** A page is mapped as before, except that splitting loses the PAT bit. */
  ghost predicate Kept(before: Space, after: Space, p: nat) {
    after.Walk(p) ==
      if before.IsLarge(p / TABLE) && !after.IsLarge(p / TABLE) then Plain(before.Walk(p)) else before.Walk(p)
  }

  /** The large ones of two 2MB pages, which may be the same. */
  function Larges(s: Space, l: nat, m: nat): nat {
    (if s.IsLarge(l) then 1 else 0) + (if m != l && s.IsLarge(m) then 1 else 0)
  }

  /** The first and the last 2MB page of the stack area. */
  function FirstLarge(area: nat): nat { area / TABLE }

  function LastLarge(area: nat): nat { (area + AREA_PAGES - 1) / TABLE }

  /** The page lies in a 2MB page of the stack area, which the guards split if it is large. */
  predicate InSplit(s: Space, area: nat, p: nat) {
    (p / TABLE == FirstLarge(area) || p / TABLE == LastLarge(area)) && s.IsLarge(p / TABLE)
  }

  /** Only these pages lose their PAT bit. */
  predicate LosesPat(s: Space, area: nat, p: nat) {
    InSplit(s, area, p) && s.Walk(p).Mapped? && s.Walk(p).pat
  }

  class PageTables {
    const pool: seq<nat>
    var space: Space
    var used: nat
    var splitVa: seq<nat>

    /** The pool's tables are set aside; none is used yet. */
    constructor (space: Space, pool: seq<nat>)
      requires |pool| == PT_POOL_COUNT && space.Tree()
      requires forall k :: 0 <= k < |pool| ==> space.Unused(pool[k])
      requires forall j, k :: 0 <= j < k < |pool| ==> pool[j] != pool[k]
      ensures Valid() && this.space == space && used == 0
    {
      this.space, this.pool, used, splitVa := space, pool, 0, seq(PT_POOL_COUNT, _ => 0);
    }

    ghost predicate Valid()
      reads this
    {
      && |pool| == |splitVa| == PT_POOL_COUNT && used <= PT_POOL_COUNT && space.Tree()
      && (forall k :: used <= k < PT_POOL_COUNT ==> space.Unused(pool[k]))
      && (forall j, k :: 0 <= j < k < PT_POOL_COUNT ==> pool[j] != pool[k])
      && (forall k :: 0 <= k < used ==> !space.IsLarge(splitVa[k]))
    }

    /** pd_entry_for */
    method PdEntryFor(l: nat) returns (found: bool, directory: nat)
      requires l / TABLE / TABLE < TABLE
      ensures found <==> space.Pde(l).Some?
      ensures found ==> directory == space.Upper(l / TABLE).frame
    {
      var e4 := space.pml4[l / TABLE / TABLE % TABLE];
      if !e4.present || e4.frame !in space.pdpts { return false, 0; }
      var e3 := space.pdpts[e4.frame][l / TABLE % TABLE];
      if !e3.present || e3.large || e3.frame !in space.memory { return false, 0; }
      return true, e3.frame;
    }

    /** ensure_4k_table */
    method EnsureTable(l: nat) returns (ok: bool, table: nat)
      requires Valid() && l / TABLE / TABLE < TABLE && (space.Pde(l).Some? ==> space.Identity(l))
      modifies this
      ensures Valid()
      ensures ok <==> old(space).Pde(l).Some? && (old(space).IsLarge(l) ==> old(used) < PT_POOL_COUNT)
      ensures !ok ==> space == old(space) && used == old(used)
      ensures ok ==> space.TableOf(l) == Some(table) && used == old(used) + if old(space).IsLarge(l) then 1 else 0
      ensures ok ==> forall m: nat :: m != l ==> space.Pde(m) == old(space).Pde(m)
      ensures forall p: nat :: Kept(old(space), space, p)
    {
      table := 0;
      var directory;
      ok, directory := PdEntryFor(l);
      if !ok { return; }
      var pde := space.memory[directory][l % TABLE];
      if !pde.large { return true, pde.frame; }
      for k := 0 to used
        invariant space == old(space) && used == old(used) && splitVa == old(splitVa)
      {
        // A recorded page is no longer large, so the record of split pages is never hit.
        if splitVa[k] == l { assert false; }
      }
      if used >= PT_POOL_COUNT { return false, 0; }
      table := pool[used];
      Split(l, directory, pde, table);
    }

    /** The part of ensure_4k_table that splits a large page. */
    method Split(l: nat, directory: nat, pde: Entry, table: nat)
      requires Valid() && space.IsLarge(l) && space.Identity(l) && used < PT_POOL_COUNT && table == pool[used]
      requires directory == space.Upper(l / TABLE).frame && space.Pde(l) == Some(pde)
      modifies this
      ensures Valid() && space.TableOf(l) == Some(table) && used == old(used) + 1
      ensures forall m: nat :: m != l ==> space.Pde(m) == old(space).Pde(m)
      ensures forall p: nat :: Kept(old(space), space, p)
    {
      ghost var before := space;
      space := space.WithMemory(table, SmallPages(l, pde.flags));
      before.UnusedWrite(table, SmallPages(l, pde.flags));
      ghost var filled := space;
      splitVa := splitVa[used := l];
      used := used + 1;
      var e := Entry(table, true, false, false, pde.flags);
      space := space.(memory := space.memory[directory := space.memory[directory][l % TABLE := e]]);
      assert space == filled.WithPde(l, e);
      filled.PdeWrite(l, e);
      filled.SplitTree(l, table, e);
      filled.SplitWalks(l, table, e);
      forall p: nat ensures Kept(before, space, p) {
        assert filled.Walk(p) == before.Walk(p) && filled.Pde(p / TABLE) == before.Pde(p / TABLE);
      }
    }

    /** One round of unmap_range. */
    method UnmapPage(p: nat)
      requires Valid() && space.Identity(p / TABLE) && (space.IsLarge(p / TABLE) ==> used < PT_POOL_COUNT)
      modifies this
      ensures Valid() && space.Walk(p) == Unmapped && space.TableOf(p / TABLE).Some?
      ensures forall q: nat :: q != p ==> Kept(old(space), space, q)
      ensures forall m: nat :: m != p / TABLE ==> space.Pde(m) == old(space).Pde(m)
      ensures used == old(used) + if old(space).IsLarge(p / TABLE) then 1 else 0
    {
      var ok, table := EnsureTable(p / TABLE);
      if !ok { return; }
      ghost var before := space;
      var pte := space.memory[table][p % TABLE];
      before.ClearWalks(p, pte.(present := false));
      space := space.WithMemory(table, space.memory[table][p % TABLE := pte.(present := false)]);
      forall q: nat | q != p ensures Kept(old(space), space, q) {
        assert Kept(old(space), before, q) && space.Walk(q) == before.Walk(q)
               && space.Pde(q / TABLE) == before.Pde(q / TABLE);
      }
    }

    /** unmap_range, inside two 2MB pages, which may be the same */
    method UnmapRange(first: nat, count: nat, ghost l0: nat, ghost l1: nat)
      requires Valid() && count > 0 && l0 <= l1 <= l0 + 1 && l0 * TABLE <= first && first + count <= (l1 + 1) * TABLE
      requires space.Identity(l0) && space.Identity(l1)
      requires used + Larges(space, l0, l1) <= PT_POOL_COUNT
      modifies this
      ensures Valid() && space.Identity(l0) && space.Identity(l1)
      ensures used + Larges(space, l0, l1) == old(used) + Larges(old(space), l0, l1)
      ensures forall q: nat ::
                if first <= q < first + count then space.Walk(q) == Unmapped else Kept(old(space), space, q)
      ensures forall m: nat :: space.IsLarge(m) ==> old(space).IsLarge(m)
      ensures forall m: nat :: m != l0 && m != l1 ==> space.Pde(m) == old(space).Pde(m)
      ensures !space.IsLarge(first / TABLE) && !space.IsLarge((first + count - 1) / TABLE)
    {
      for n := 0 to count
        invariant Valid() && space.Identity(l0) && space.Identity(l1)
        invariant used + Larges(space, l0, l1) == old(used) + Larges(old(space), l0, l1)
        invariant forall q: nat ::
                    if first <= q < first + n then space.Walk(q) == Unmapped else Kept(old(space), space, q)
        invariant forall m: nat :: space.IsLarge(m) ==> old(space).IsLarge(m)
        invariant forall m: nat :: m != l0 && m != l1 ==> space.Pde(m) == old(space).Pde(m)
        invariant n > 0 ==> !space.IsLarge(first / TABLE) && !space.IsLarge((first + n - 1) / TABLE)
      {
        var p := first + n;
        assert p / TABLE == l0 || p / TABLE == l1;
        ghost var before := space;
        UnmapPage(p);
        forall m: nat ensures space.IsLarge(m) ==> before.IsLarge(m) {
          assert m != p / TABLE ==> space.Pde(m) == before.Pde(m);
        }
        forall q: nat
          ensures if first <= q <= p then space.Walk(q) == Unmapped else Kept(old(space), space, q)
        {
          KeptTwice(old(space), before, space, p, q, first);
        }
      }
    }

    /** os_process_install_stack_guards: every page of a guard is unmapped; every other page of the
        address space keeps its mapping, exactly if it is not in a large page of the area with the
        PAT bit set, which is then all it loses; and the pool of tables is large enough. */
    method InstallStackGuards(area: nat)
      requires Valid() && used + 2 <= PT_POOL_COUNT
      requires space.Identity(FirstLarge(area)) && space.Identity(LastLarge(area))
      modifies this
      ensures Valid() && used <= old(used) + 2
      ensures forall p: nat :: InGuard(area, p) ==> space.Walk(p) == Unmapped
      ensures forall p: nat :: !InGuard(area, p) ==>
                space.Walk(p) == if InSplit(old(space), area, p) then Plain(old(space).Walk(p)) else old(space).Walk(p)
      ensures forall p: nat :: !InGuard(area, p) ==>
                (space.Walk(p) == old(space).Walk(p) <==> !LosesPat(old(space), area, p))
      ensures forall m: nat :: m != FirstLarge(area) && m != LastLarge(area) ==> space.Pde(m) == old(space).Pde(m)
      ensures !space.IsLarge(FirstLarge(area)) && !space.IsLarge(LastLarge(area))
    {
      UnmapGuards(area);
      forall p: nat | !InGuard(area, p)
        ensures space.Walk(p) == if InSplit(old(space), area, p) then Plain(old(space).Walk(p)) else old(space).Walk(p)
      {
        assert Kept(old(space), space, p);
        var l := p / TABLE;
        assert l != FirstLarge(area) && l != LastLarge(area) ==> space.Pde(l) == old(space).Pde(l);
      }
    }

    /** Its loop over the guards */
    method UnmapGuards(area: nat)
      requires Valid() && used + 2 <= PT_POOL_COUNT
      requires space.Identity(FirstLarge(area)) && space.Identity(LastLarge(area))
      modifies this
      ensures Valid() && used <= old(used) + 2
      ensures forall p: nat :: if InGuard(area, p) then space.Walk(p) == Unmapped else Kept(old(space), space, p)
      ensures forall m: nat :: m != FirstLarge(area) && m != LastLarge(area) ==> space.Pde(m) == old(space).Pde(m)
      ensures !space.IsLarge(FirstLarge(area)) && !space.IsLarge(LastLarge(area))
    {
      ghost var l0, l1 := FirstLarge(area), LastLarge(area);
      for i := 0 to PROCESS_COUNT + 1
        invariant Valid() && space.Identity(l0) && space.Identity(l1)
        invariant used + Larges(space, l0, l1) == old(used) + Larges(old(space), l0, l1)
        invariant forall p: nat ::
                    if InGuard(area, p) && p < GuardBase(area, i) then space.Walk(p) == Unmapped
                    else Kept(old(space), space, p)
        invariant forall m: nat :: space.IsLarge(m) ==> old(space).IsLarge(m)
        invariant forall m: nat :: m != l0 && m != l1 ==> space.Pde(m) == old(space).Pde(m)
        invariant i > 0 ==> !space.IsLarge(l0)
        invariant i == PROCESS_COUNT + 1 ==> !space.IsLarge(l1)
      {
        ghost var before := space;
        UnmapRange(GuardBase(area, i), GUARD_PAGES, l0, l1);
        forall p: nat
          ensures if InGuard(area, p) && p < GuardBase(area, i + 1) then space.Walk(p) == Unmapped
                  else Kept(old(space), space, p)
        {
          NextGuard(area, i, p);
          assert if InGuardNumber(area, i, p) then space.Walk(p) == Unmapped else Kept(before, space, p);
          if !InGuardNumber(area, i, p) { KeptAgain(old(space), before, space, p); }
        }
      }
      forall p: nat ensures InGuard(area, p) ==> p < GuardBase(area, PROCESS_COUNT + 1) {
        GuardsAndStacks(area, p);
      }
    }
  }

  /** Being unmapped or kept survives two steps in a row. */
  lemma KeptAgain(a: Space, b: Space, c: Space, p: nat)
    requires Kept(b, c, p)
    requires (c.IsLarge(p / TABLE) ==> b.IsLarge(p / TABLE)) && (b.IsLarge(p / TABLE) ==> a.IsLarge(p / TABLE))
    ensures b.Walk(p) == Unmapped ==> c.Walk(p) == Unmapped
    ensures Kept(a, b, p) ==> Kept(a, c, p)
  {
  }

  lemma KeptTwice(a: Space, b: Space, c: Space, p: nat, q: nat, first: nat)
    requires first <= p && c.Walk(p) == Unmapped && (q != p ==> Kept(b, c, q))
    requires if first <= q < p then b.Walk(q) == Unmapped else Kept(a, b, q)
    requires (c.IsLarge(q / TABLE) ==> b.IsLarge(q / TABLE)) && (b.IsLarge(q / TABLE) ==> a.IsLarge(q / TABLE))
    ensures if first <= q <= p then c.Walk(q) == Unmapped else Kept(a, c, q)
  {
    if q != p { KeptAgain(a, b, c, q); }
  }

  lemma NextGuard(area: nat, i: nat, p: nat)
    requires i <= PROCESS_COUNT
    ensures InGuard(area, p) && p < GuardBase(area, i + 1) <==>
            (InGuard(area, p) && p < GuardBase(area, i)) || InGuardNumber(area, i, p)
  {
    GuardsAndStacks(area, p);
    assert i == 0 || i == 1 || i == 2 || i == 3 || i == 4;
  }

  // ---------------------------------------------------------------- a bit that is lost

  function BlankTable(): Table { seq(TABLE, _ => Entry(0, false, false, false, {})) }

  /** 1GB mapped to itself by large pages with the PAT bit set, and eight tables for the pool. */
  function Example(): Space {
    Space(
      BlankTable()[0 := Entry(1, true, false, false, {})],
      map[1 := BlankTable()[0 := Entry(2, true, false, false, {})]],
      map[2 := seq(TABLE, j requires 0 <= j < TABLE => Entry(j * TABLE, true, true, true, {})),
          3 := BlankTable(), 4 := BlankTable(), 5 := BlankTable(), 6 := BlankTable(),
          7 := BlankTable(), 8 := BlankTable(), 9 := BlankTable(), 10 := BlankTable()])
  }

  lemma ExamplePages(l: nat)
    ensures Example().Pde(l) == if l < TABLE then Some(Entry(l * TABLE, true, true, true, {})) else None
  {
    var u := l / TABLE;
    assert Example().Upper(u) == if u == 0 then Directory(2, {}, {}) else Nothing;
  }

  lemma ExampleIsATree()
    ensures Example().Tree() && forall f: nat :: 3 <= f < 3 + PT_POOL_COUNT ==> Example().Unused(f)
  {
    forall u: nat ensures Example().Upper(u) == if u == 0 then Directory(2, {}, {}) else Nothing {
    }
    forall l: nat ensures Example().TableOf(l) == None { ExamplePages(l); }
  }

  /** A page below the stack area, in the same large page, that loses its PAT bit. */
  lemma BitIsLost()
    ensures Example().Tree() && !InGuard(16, 0) && LosesPat(Example(), 16, 0)
    ensures Example().Walk(0) == Mapped(0, true, {}, {}, {})
  {
    ExampleIsATree();
    ExamplePages(0);
  }

  method LoseBit() returns (tables: PageTables)
    ensures fresh(tables) && tables.space.Walk(0) == Mapped(0, false, {}, {}, {}) && tables.space.Walk(16) == Unmapped
  {
    ExampleIsATree();
    ExamplePages(0);
    var pool := seq(PT_POOL_COUNT, k => 3 + k);
    tables := new PageTables(Example(), pool);
    BitIsLost();
    tables.InstallStackGuards(16);
  }

  // ---------------------------------------------------------------- telling the two sides apart

  const PAGE: nat := 4096

  /** A stack pointer inside stack `i`; the empty stack's is one past its end. */
  predicate OnStack(area: nat, i: nat, rsp: nat) {
    StackBase(area, i) * PAGE <= rsp <= (StackBase(area, i) + STACK_PAGES) * PAGE
  }

  /** os_process_guard_is_upper, on byte addresses */
  method GuardIsUpper(area: nat, va: nat, rsp: nat) returns (upper: bool)
    ensures upper <==> exists i: nat ::
              i < PROCESS_COUNT && InGuardNumber(area, i + 1, va / PAGE) && OnStack(area, i, rsp)
  {
    for i := 0 to PROCESS_COUNT + 1
      invariant forall j: nat :: j < i ==> !InGuardNumber(area, j, va / PAGE)
    {
      if !InGuardNumber(area, i, va / PAGE) { continue; }
      GuardIsOne(area, i, va / PAGE);
      if i == 0 { return false; }
      upper := OnStack(area, i - 1, rsp);
      return;
    }
    upper := false;
  }

  lemma GuardIsOne(area: nat, i: nat, p: nat)
    requires i <= PROCESS_COUNT && InGuardNumber(area, i, p)
    ensures forall j: nat :: j <= PROCESS_COUNT && InGuardNumber(area, j, p) ==> j == i
  {
  }

  /** A fault taken on stack `i` is told to be an overrun of its top exactly when it is in the
      guard above that stack and not in the one below. */
  lemma SidesToldApart(area: nat, i: nat, rsp: nat, va: nat)
    requires i < PROCESS_COUNT && OnStack(area, i, rsp)
    requires InGuardNumber(area, i, va / PAGE) || InGuardNumber(area, i + 1, va / PAGE)
    ensures (exists j: nat :: j < PROCESS_COUNT && InGuardNumber(area, j + 1, va / PAGE) && OnStack(area, j, rsp))
            <==> InGuardNumber(area, i + 1, va / PAGE)
  {
  }
}
