/** Where the parts of a queue are in memory. */
module QueueLayout {
  import opened Wrappers
  import opened Words

  lemma PageMask(x: nat)
    ensures BitAnd(x, PAGE_SIZE - 1) == x % PAGE_SIZE
  {
    assert Pow2(4) == 16;
    Pow2Splits(4, 4);
    Pow2Splits(4, 8);
    MaskIsMod(x, 12);
  }

  /** `align_up` adds a page and then clears the bits below the page size. */
  function AlignUp(size: nat): (r: nat)
    ensures r == (size + 4096) / 4096 * 4096
  {
    PageMask(size + PAGE_SIZE);
    size + PAGE_SIZE - BitAnd(size + PAGE_SIZE, PAGE_SIZE - 1)
  }

  /** `pages`. */
  function Pages(size: nat): (r: nat) {
    size / PAGE_SIZE + if size % PAGE_SIZE > 0 then 1 else 0
  }

  /** The least multiple of the page size that is not less than `size`. */
  ghost predicate IsRoundUp(r: nat, size: nat) {
    r % PAGE_SIZE == 0 && r >= size && forall m: nat :: m % PAGE_SIZE == 0 && m >= size ==> r <= m
  }

  datatype Parts = Parts(desc: nat, avail: nat, used: nat)

  /** `queue_part_sizes`: 16 bytes a descriptor, 2 an available entry and 8 a used element, and 6 bytes of
      flags, index and event for each ring. */
  function PartSizes(n: nat): (p: Parts) {
    Parts(16 * n, 2 * (3 + n), 2 * 3 + 8 * n)
  }

  /** An area of memory: `len` bytes from `at` on. */
  datatype Area = Area(at: nat, len: nat)

  predicate Disjoint(a: Area, b: Area) {
    a.at + a.len <= b.at || b.at + b.len <= a.at
  }

  predicate Inside(a: Area, b: Area) {
    b.at <= a.at && a.at + a.len <= b.at + b.len
  }

  /** The three parts, at the addresses that the device is told. */
  datatype Layout = Layout(desc: Area, avail: Area, used: Area)

  function LegacyPages(n: nat): (pages: nat) {
    var p := PartSizes(n);
    (AlignUp(p.desc + p.avail) + AlignUp(p.used)) / PAGE_SIZE
  }

  /** `allocate_legacy`: one region from `base` on. */
  function Legacy(n: nat, base: nat): (l: Layout) {
    var p := PartSizes(n);
    Layout(Area(base, p.desc), Area(base + p.desc, p.avail), Area(base + AlignUp(p.desc + p.avail), p.used))
  }

  /** `allocate_flexible`: one region that the driver writes and one that the device writes. */
  function Flexible(n: nat, driver: nat, device: nat): (l: Layout) {
    var p := PartSizes(n);
    Layout(Area(driver, p.desc), Area(driver + p.desc, p.avail), Area(device, p.used))
  }

  // ---------------------------------------------------------------------------------------

  /** `align_up` rounds up, except that it adds a whole page to what is a multiple already. */
  lemma AlignUpExact(size: nat)
    ensures IsRoundUp(AlignUp(size), size) <==> size % PAGE_SIZE != 0
    ensures size % PAGE_SIZE == 0 ==> IsRoundUp(AlignUp(size) - PAGE_SIZE, size)
  {
    var q, r := size / PAGE_SIZE, size % PAGE_SIZE;
    ModUnique(size + PAGE_SIZE, PAGE_SIZE, q + 1, r);
    Least(q + 1, size);
    Least(q, size);
  }

  lemma Least(q: nat, size: nat)
    ensures (q * PAGE_SIZE) % PAGE_SIZE == 0
    ensures (q - 1) * PAGE_SIZE < size <= q * PAGE_SIZE ==> IsRoundUp(q * PAGE_SIZE, size)
  {
    forall m: nat | m % PAGE_SIZE == 0 && m >= size && (q - 1) * PAGE_SIZE < size
      ensures q * PAGE_SIZE <= m
    {
      assert m == PAGE_SIZE * (m / PAGE_SIZE);
    }
  }

  lemma {:induction false} PowerIsEven(k: nat)
    ensures Pow2(k) == 1 || Pow2(k) % 2 == 0
  {
  }

  lemma NotWhole(x: nat)
    requires x % 4 == 2 || x == 24
    ensures x % PAGE_SIZE != 0
  {
    assert x == PAGE_SIZE * (x / PAGE_SIZE) + x % PAGE_SIZE;
  }

  lemma HalfWords(n: nat)
    requires n == 1 || n % 2 == 0
    ensures (18 * n + 6) % 4 == 2 || 18 * n + 6 == 24
    ensures (8 * n + 6) % 4 == 2
  {
    ModUnique(8 * n + 6, 4, 2 * n + 1, 2);
    if n != 1 {
      var half: nat := n / 2;
      assert n == 2 * half;
      ModUnique(18 * n + 6, 4, 9 * half + 1, 2);
    }
  }

  /** No part of a queue whose size is a power of two ends at a page boundary. */
  lemma NeverWholePages(n: nat)
    requires IsQueueSize(n)
    ensures var p := PartSizes(n);
            (p.desc + p.avail) % PAGE_SIZE != 0 && p.used % PAGE_SIZE != 0
  {
    var k: nat :| k <= 15 && n == Pow2(k);
    PowerIsEven(k);
    HalfWords(n);
    NotWhole(18 * n + 6);
    NotWhole(8 * n + 6);
  }

  /** Section 2.6.2 of VirtIO v1.1: the used ring starts where the first two parts, rounded up, end, and the
      whole takes the sum of the two rounded sizes. */
  lemma LegacyFollowsStandard(n: nat, base: nat)
    requires IsQueueSize(n)
    ensures var p, l := PartSizes(n), Legacy(n, base);
            && IsRoundUp(l.used.at - base, p.desc + p.avail)
            && IsRoundUp(LegacyPages(n) * PAGE_SIZE - (l.used.at - base), p.used)
  {
    var p := PartSizes(n);
    NeverWholePages(n);
    AlignUpExact(p.desc + p.avail);
    AlignUpExact(p.used);
    WholePages(AlignUp(p.desc + p.avail), AlignUp(p.used));
  }

  lemma WholePages(x: nat, y: nat)
    requires x % PAGE_SIZE == 0 && y % PAGE_SIZE == 0
    ensures (x + y) / PAGE_SIZE * PAGE_SIZE == x + y
  {
  }

  ghost predicate Separate(l: Layout) {
    Disjoint(l.desc, l.avail) && Disjoint(l.desc, l.used) && Disjoint(l.avail, l.used)
  }

  /** The alignments of section 2.6 of VirtIO v1.1. */
  ghost predicate Aligned(l: Layout) {
    l.desc.at % 16 == 0 && l.avail.at % 2 == 0 && l.used.at % 4 == 0
  }

  lemma Multiple(x: nat, d: nat, q: nat)
    requires d > 0 && x == d * q
    ensures x % d == 0
  {
    ModUnique(x, d, q, 0);
  }

  /** Parts at whole pages, and one right behind a descriptor table at a whole page, are aligned. */
  lemma PagesAlign(base: nat, n: nat, used: nat)
    requires base % PAGE_SIZE == 0 && used % PAGE_SIZE == 0
    ensures base % 16 == 0 && (base + 16 * n) % 2 == 0 && used % 4 == 0
  {
    var b, u := base / PAGE_SIZE, used / PAGE_SIZE;
    Multiple(base, 16, 256 * b);
    Multiple(base + 16 * n, 2, 2048 * b + 8 * n);
    Multiple(used, 4, 1024 * u);
  }

  lemma PagesAdd(x: nat, y: nat)
    requires x % PAGE_SIZE == 0 && y % PAGE_SIZE == 0
    ensures (x + y) % PAGE_SIZE == 0
  {
    Multiple(x + y, PAGE_SIZE, x / PAGE_SIZE + y / PAGE_SIZE);
  }

  /** In one page-aligned region, the parts are disjoint, aligned and inside. */
  lemma LegacySound(n: nat, base: nat)
    requires IsQueueSize(n) && base % PAGE_SIZE == 0
    ensures var l, region := Legacy(n, base), Area(base, LegacyPages(n) * PAGE_SIZE);
            && Separate(l) && Aligned(l)
            && Inside(l.desc, region) && Inside(l.avail, region) && Inside(l.used, region)
  {
    LegacyFollowsStandard(n, base);
    var at := AlignUp(PartSizes(n).desc + PartSizes(n).avail);
    PagesAdd(base, at);
    PagesAlign(base, n, base + at);
  }

  /** In two page-aligned regions that do not overlap, likewise; nothing the driver writes is in the region
      of the device. */
  lemma FlexibleSound(n: nat, driver: nat, device: nat)
    requires IsQueueSize(n) && driver % PAGE_SIZE == 0 && device % PAGE_SIZE == 0
    requires var p := PartSizes(n);
             Disjoint(Area(driver, Pages(p.desc + p.avail) * PAGE_SIZE), Area(device, Pages(p.used) * PAGE_SIZE))
    ensures var p, l := PartSizes(n), Flexible(n, driver, device);
            && Separate(l) && Aligned(l)
            && Inside(l.desc, Area(driver, Pages(p.desc + p.avail) * PAGE_SIZE))
            && Inside(l.avail, Area(driver, Pages(p.desc + p.avail) * PAGE_SIZE))
            && Inside(l.used, Area(device, Pages(p.used) * PAGE_SIZE))
  {
    PagesCover(18 * n + 6);
    PagesCover(8 * n + 6);
    PagesAlign(driver, n, device);
  }

  lemma PagesCover(size: nat)
    ensures IsRoundUp(Pages(size) * PAGE_SIZE, size)
  {
    assert size == PAGE_SIZE * (size / PAGE_SIZE) + size % PAGE_SIZE;
    Least(Pages(size), size);
  }

  // ---------------------------------------------------------------------------------------
  // The fields of the three parts

  /** What driver and device read and write: the fields of each descriptor, and the flags, index, slots and event index
      of each ring (section 2.6 of VirtIO v1.1). */
  datatype Field =
    | DescAddr(i: nat) | DescLen(i: nat) | DescFlags(i: nat) | DescNext(i: nat)
    | AvailFlags | AvailIdx | AvailSlot(i: nat) | UsedEvent
    | UsedFlags | UsedIdx | UsedId(i: nat) | UsedLen(i: nat) | AvailEvent

  /** The field exists in a queue of that size. */
  predicate InQueue(f: Field, n: nat) {
    f.DescAddr? || f.DescLen? || f.DescFlags? || f.DescNext? || f.AvailSlot? || f.UsedId? || f.UsedLen? ==> f.i < n
  }

  /** Where the field is in its part. */
  function Offset(n: nat, f: Field): (at: nat) {
    match f
    case DescAddr(i) => 16 * i
    case DescLen(i) => 16 * i + 8
    case DescFlags(i) => 16 * i + 12
    case DescNext(i) => 16 * i + 14
    case AvailFlags => 0
    case AvailIdx => 2
    case AvailSlot(i) => 4 + 2 * i
    case UsedEvent => 4 + 2 * n
    case UsedFlags => 0
    case UsedIdx => 2
    case UsedId(i) => 4 + 8 * i
    case UsedLen(i) => 4 + 8 * i + 4
    case AvailEvent => 4 + 8 * n
  }

  function Width(f: Field): (len: nat) {
    if f.DescAddr? then 8 else if f.DescLen? || f.UsedId? || f.UsedLen? then 4 else 2
  }

  predicate InDesc(f: Field) {
    f.DescAddr? || f.DescLen? || f.DescFlags? || f.DescNext?
  }

  predicate InAvail(f: Field) {
    f.AvailFlags? || f.AvailIdx? || f.AvailSlot? || f.UsedEvent?
  }

  function PartOf(l: Layout, f: Field): (a: Area) {
    if InDesc(f) then l.desc else if InAvail(f) then l.avail else l.used
  }

  function FieldArea(l: Layout, n: nat, f: Field): (a: Area) {
    Area(PartOf(l, f).at + Offset(n, f), Width(f))
  }

  /** The parts have the sizes of `queue_part_sizes`. */
  predicate Sized(l: Layout, n: nat) {
    Parts(l.desc.len, l.avail.len, l.used.len) == PartSizes(n)
  }

  lemma FieldInside(l: Layout, n: nat, f: Field)
    requires Sized(l, n) && InQueue(f, n)
    ensures Inside(FieldArea(l, n, f), PartOf(l, f))
  {
  }

  lemma OffsetAligned(n: nat, f: Field)
    ensures Offset(n, f) % Width(f) == 0
  {
    match f
    case DescAddr(i) => Multiple(Offset(n, f), 8, 2 * i);
    case DescLen(i) => Multiple(Offset(n, f), 4, 4 * i + 2);
    case DescFlags(i) => Multiple(Offset(n, f), 2, 8 * i + 6);
    case DescNext(i) => Multiple(Offset(n, f), 2, 8 * i + 7);
    case AvailSlot(i) => Multiple(Offset(n, f), 2, 2 + i);
    case UsedEvent => Multiple(Offset(n, f), 2, 2 + n);
    case UsedId(i) => Multiple(Offset(n, f), 4, 1 + 2 * i);
    case UsedLen(i) => Multiple(Offset(n, f), 4, 2 + 2 * i);
    case AvailEvent => Multiple(Offset(n, f), 2, 2 + 4 * n);
    case _ =>
  }

  lemma PartAligned(l: Layout, f: Field)
    requires Aligned(l)
    ensures PartOf(l, f).at % Width(f) == 0
  {
    var d, u := l.desc.at / 16, l.used.at / 4;
    Multiple(l.desc.at, 8, 2 * d);
    Multiple(l.desc.at, 4, 4 * d);
    Multiple(l.desc.at, 2, 8 * d);
    Multiple(l.used.at, 2, 2 * u);
  }

  lemma SumAligned(x: nat, y: nat, d: nat)
    requires d > 0 && x % d == 0 && y % d == 0
    ensures (x + y) % d == 0
  {
    ModUnique(x + y, d, x / d + y / d, 0);
  }

  lemma OffsetsApart(n: nat, f: Field, g: Field)
    requires InQueue(f, n) && InQueue(g, n) && f != g && (InDesc(f) <==> InDesc(g)) && (InAvail(f) <==> InAvail(g))
    ensures Offset(n, f) + Width(f) <= Offset(n, g) || Offset(n, g) + Width(g) <= Offset(n, f)
  {
  }

  lemma FieldsApart(l: Layout, n: nat, f: Field, g: Field)
    requires Sized(l, n) && Separate(l) && InQueue(f, n) && InQueue(g, n) && f != g
    ensures Disjoint(FieldArea(l, n, f), FieldArea(l, n, g))
  {
    if (InDesc(f) <==> InDesc(g)) && (InAvail(f) <==> InAvail(g)) {
      OffsetsApart(n, f, g);
    } else {
      FieldInside(l, n, f);
      FieldInside(l, n, g);
    }
  }

  /** Every field lies inside its part, at a multiple of its size, and apart from every other field; and the rings hold
      nothing beyond the last field. */
  lemma FieldsSound(l: Layout, n: nat, f: Field, g: Field)
    requires Sized(l, n) && Separate(l) && Aligned(l) && InQueue(f, n) && InQueue(g, n)
    ensures Inside(FieldArea(l, n, f), PartOf(l, f)) && FieldArea(l, n, f).at % FieldArea(l, n, f).len == 0
    ensures f != g ==> Disjoint(FieldArea(l, n, f), FieldArea(l, n, g))
    ensures var last := FieldArea(l, n, UsedEvent); last.at + last.len == l.avail.at + l.avail.len
    ensures var last := FieldArea(l, n, AvailEvent); last.at + last.len == l.used.at + l.used.len
  {
    FieldInside(l, n, f);
    OffsetAligned(n, f);
    PartAligned(l, f);
    SumAligned(PartOf(l, f).at, Offset(n, f), Width(f));
    if f != g {
      FieldsApart(l, n, f, g);
    }
  }

  /** So it is in the layouts that the driver makes. */
  lemma LegacyFields(n: nat, base: nat, f: Field, g: Field)
    requires IsQueueSize(n) && base % PAGE_SIZE == 0 && InQueue(f, n) && InQueue(g, n) && f != g
    ensures var l := Legacy(n, base);
            && Inside(FieldArea(l, n, f), PartOf(l, f)) && FieldArea(l, n, f).at % FieldArea(l, n, f).len == 0
            && Disjoint(FieldArea(l, n, f), FieldArea(l, n, g))
  {
    LegacySound(n, base);
    FieldsSound(Legacy(n, base), n, f, g);
  }

  lemma FlexibleFields(n: nat, driver: nat, device: nat, f: Field, g: Field)
    requires IsQueueSize(n) && driver % PAGE_SIZE == 0 && device % PAGE_SIZE == 0
    requires var p := PartSizes(n);
             Disjoint(Area(driver, Pages(p.desc + p.avail) * PAGE_SIZE), Area(device, Pages(p.used) * PAGE_SIZE))
    requires InQueue(f, n) && InQueue(g, n) && f != g
    ensures var l := Flexible(n, driver, device);
            && Inside(FieldArea(l, n, f), PartOf(l, f)) && FieldArea(l, n, f).at % FieldArea(l, n, f).len == 0
            && Disjoint(FieldArea(l, n, f), FieldArea(l, n, g))
  {
    FlexibleSound(n, driver, device);
    FieldsSound(Flexible(n, driver, device), n, f, g);
  }

  // ---------------------------------------------------------------------------------------

  /** The assertions of `queue_set` of the legacy MMIO transport, and the page number that it writes. */
  method QueueSetLegacy(size: nat, descriptors: nat, driverArea: nat, deviceArea: nat) returns (r: Result<nat, Error>)
    ensures r.Ok? <==>
              && driverArea == descriptors + 16 * size
              && deviceArea == descriptors + AlignUp(16 * size + 2 * (size + 3))
              && descriptors % PAGE_SIZE == 0 && descriptors < U32 * PAGE_SIZE
    ensures r.Ok? ==> r.value * PAGE_SIZE == descriptors
    ensures r.Err? ==> r == Err(Panicked)
  {
    if driverArea < descriptors || driverArea - descriptors != 16 * size {
      return Err(Panicked);
    }
    if deviceArea < descriptors || deviceArea - descriptors != AlignUp(16 * size + 2 * (size + 3)) {
      return Err(Panicked);
    }
    var pfn := (descriptors / PAGE_SIZE) % U32;
    PageNumber(descriptors);
    if pfn * PAGE_SIZE != descriptors {
      return Err(Panicked);
    }
    return Ok(pfn);
  }

  lemma PageNumber(x: nat)
    ensures (x / PAGE_SIZE) % U32 * PAGE_SIZE == x <==> x % PAGE_SIZE == 0 && x < U32 * PAGE_SIZE
  {
    var q := x / PAGE_SIZE;
    assert x == PAGE_SIZE * q + x % PAGE_SIZE;
    assert q == U32 * (q / U32) + q % U32;
  }

  /** The assertions hold of every layout that `allocate_legacy` makes in pages whose numbers fit. */
  method SetUpLegacy(n: nat, base: nat) returns (r: Result<nat, Error>)
    requires IsQueueSize(n)
    ensures r.Ok? <==> base % PAGE_SIZE == 0 && base < U32 * PAGE_SIZE
    ensures r.Ok? ==> r.value * PAGE_SIZE == base
  {
    var l := Legacy(n, base);
    r := QueueSetLegacy(n, l.desc.at, l.avail.at, l.used.at);
  }
}
