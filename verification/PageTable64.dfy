/** The five-level page table of the MM64 build (mm64.c): tables of 512 words, allocated when first
    needed, whose words are addresses of the next level's tables or, on the last level, entries. */
module PageTable64 {
  import opened Words
  import Pte

  const TABLE_SIZE: nat := 512
  const PATTERN := 0xdead_beef
  const PAGES: nat := 0x2000_0000_0000

  /** get_pd_from_address: the indices of the five levels, top first. */
  function IndicesOfAddress(addr: nat): (idx: seq<nat>)
    ensures |idx| == 5 && forall k :: 0 <= k < 5 ==> idx[k] < TABLE_SIZE
  {
    [GetVal(addr, 0x1_0000_0000_0000, TABLE_SIZE), GetVal(addr, 0x80_0000_0000, TABLE_SIZE),
     GetVal(addr, 0x4000_0000, TABLE_SIZE), GetVal(addr, 0x20_0000, TABLE_SIZE), GetVal(addr, 0x1000, TABLE_SIZE)]
  }

  /** get_pd_from_pagenum, whose shift is done in 64 bits */
  function Indices(pgn: nat): (idx: seq<nat>)
    ensures |idx| == 5 && forall k :: 0 <= k < 5 ==> idx[k] < TABLE_SIZE
  {
    IndicesOfAddress(pgn * 0x1000 % 0x1_0000_0000_0000_0000)
  }

  function Rejoin(idx: seq<nat>): nat
    requires |idx| == 5
  {
    (((idx[0] * TABLE_SIZE + idx[1]) * TABLE_SIZE + idx[2]) * TABLE_SIZE + idx[3]) * TABLE_SIZE + idx[4]
  }

  lemma ShiftWraps(pgn: nat)
    ensures pgn * 0x1000 % 0x1_0000_0000_0000_0000 == pgn % 0x10_0000_0000_0000 * 0x1000
  {
    var q, p := pgn / 0x10_0000_0000_0000, pgn % 0x10_0000_0000_0000;
    assert pgn * 0x1000 == q * 0x1_0000_0000_0000_0000 + p * 0x1000;
  }

  lemma LowPageBits(pgn: nat)
    ensures pgn % 0x10_0000_0000_0000 % PAGES == pgn % PAGES
  {
    var q, p := pgn / 0x10_0000_0000_0000, pgn % 0x10_0000_0000_0000;
    assert pgn == q * 128 * PAGES + p;
  }

  /** The indices are the base-512 digits of the page number; two page numbers have the same ones
      exactly when they agree in their low 45 bits. */
  lemma IndicesRejoin(pgn: nat)
    ensures Rejoin(Indices(pgn)) == pgn % PAGES
  {
    hide Rejoin, IndicesOfAddress;
    ShiftWraps(pgn);
    DigitsOf(pgn % 0x10_0000_0000_0000);
    LowPageBits(pgn);
  }

  lemma DigitsOf(p: nat)
    ensures Rejoin(IndicesOfAddress(p * 0x1000)) == p % PAGES
  {
    var q1 := p / TABLE_SIZE;
    var q2 := q1 / TABLE_SIZE;
    var q3 := q2 / TABLE_SIZE;
    var q4 := q3 / TABLE_SIZE;
    Levels(p);
    assert p == (((q4 * TABLE_SIZE + q3 % TABLE_SIZE) * TABLE_SIZE + q2 % TABLE_SIZE) * TABLE_SIZE + q1 % TABLE_SIZE) * TABLE_SIZE + p % TABLE_SIZE;
    LowDigits(p, q4, ((q3 % TABLE_SIZE * TABLE_SIZE + q2 % TABLE_SIZE) * TABLE_SIZE + q1 % TABLE_SIZE) * TABLE_SIZE + p % TABLE_SIZE);
  }

  lemma LowDigits(p: nat, q4: nat, low: nat)
    requires p == q4 * 0x10_0000_0000 + low && low < 0x10_0000_0000
    ensures p % PAGES == q4 % TABLE_SIZE * 0x10_0000_0000 + low
  {
    var d := q4 / TABLE_SIZE;
    assert p == d * PAGES + (q4 % TABLE_SIZE * 0x10_0000_0000 + low);
  }

  lemma Levels(p: nat)
    ensures p * 0x1000 / 0x1000 == p
    ensures p * 0x1000 / 0x20_0000 == p / TABLE_SIZE
    ensures p * 0x1000 / 0x4000_0000 == p / TABLE_SIZE / TABLE_SIZE
    ensures p * 0x1000 / 0x80_0000_0000 == p / TABLE_SIZE / TABLE_SIZE / TABLE_SIZE
    ensures p * 0x1000 / 0x1_0000_0000_0000 == p / TABLE_SIZE / TABLE_SIZE / TABLE_SIZE / TABLE_SIZE
  {
  }

  lemma SplitIsUnique(h: nat, l: nat, h': nat, l': nat)
    requires l < TABLE_SIZE && l' < TABLE_SIZE && h * TABLE_SIZE + l == h' * TABLE_SIZE + l'
    ensures h == h' && l == l'
  {
  }

  lemma RejoinIsInjective(x: seq<nat>, y: seq<nat>)
    requires IsIndex(x) && IsIndex(y) && Rejoin(x) == Rejoin(y)
    ensures x == y
  {
    SplitIsUnique(((x[0] * TABLE_SIZE + x[1]) * TABLE_SIZE + x[2]) * TABLE_SIZE + x[3], x[4],
                  ((y[0] * TABLE_SIZE + y[1]) * TABLE_SIZE + y[2]) * TABLE_SIZE + y[3], y[4]);
    SplitIsUnique((x[0] * TABLE_SIZE + x[1]) * TABLE_SIZE + x[2], x[3], (y[0] * TABLE_SIZE + y[1]) * TABLE_SIZE + y[2], y[3]);
    SplitIsUnique(x[0] * TABLE_SIZE + x[1], x[2], y[0] * TABLE_SIZE + y[1], y[2]);
    SplitIsUnique(x[0], x[1], y[0], y[1]);
  }

  lemma IndicesAreInjective(g: nat, h: nat)
    ensures Indices(g) == Indices(h) <==> g % PAGES == h % PAGES
  {
    hide Indices, Rejoin;
    IndicesRejoin(g);
    IndicesRejoin(h);
    if g % PAGES == h % PAGES {
      RejoinIsInjective(Indices(g), Indices(h));
    }
  }

  lemma OwnIndices(g: nat, h: nat)
    requires g < PAGES && h < PAGES
    ensures Indices(g) == Indices(h) <==> g == h
  {
    hide Indices;
    IndicesAreInjective(g, h);
  }

  // ---------------------------------------------------------------- the flat map

  /** pte_set_swap here sets PRESENT together with SWAPPED. */
  function WithSwap64(word: int, swptyp: nat, swpoff: nat): int {
    var typed := SetVal(SetBit(SetBit(word, Pte.PRESENT), Pte.SWAPPED), swptyp, 1, Pte.SWPTYP_SPAN);
    SetVal(typed, swpoff, Pte.SWPOFF_UNIT, Pte.SWPOFF_SPAN)
  }

  datatype Update = SetFpn(pgn: nat, fpn: nat) | SetSwap(pgn: nat, swptyp: nat, swpoff: nat) | Memset(addr: nat, pgnum: int)

  /** The page of the tree a page number names: the indices see its low 45 bits. */
  function Key(pgn: nat): (g: nat)
    ensures g < PAGES
  {
    pgn % PAGES
  }

  /** The entry a flat map holds for a page of the tree, 0 if it was never set. */
  function Word(flat: map<nat, int>, g: nat): int { if g in flat then flat[g] else 0 }

  /** pgit * PAGING64_PAGESZ, a product of two ints, taken to wrap around as on two's complement machines */
  function FillOffset(pgit: nat): int {
    var low := pgit * 0x1000 % 0x1_0000_0000;
    if low < 0x8000_0000 then low else low - 0x1_0000_0000
  }

  /** The page number vmap_pgd_memset computes for its pgit-th page */
  function FillPage(addr: nat, pgit: nat): nat { (addr + FillOffset(pgit)) % 0x1_0000_0000_0000_0000 / 0x1000 }

  function Filled(flat: map<nat, int>, addr: nat, n: nat): map<nat, int> {
    if n == 0 then flat else Filled(flat, addr, n - 1)[Key(FillPage(addr, n - 1)) := PATTERN]
  }

  function Apply(flat: map<nat, int>, u: Update): map<nat, int> {
    match u
    case SetFpn(pgn, fpn) => flat[Key(pgn) := Pte.WithFpn(Word(flat, Key(pgn)), fpn)]
    case SetSwap(pgn, swptyp, swpoff) => flat[Key(pgn) := WithSwap64(Word(flat, Key(pgn)), swptyp, swpoff)]
    case Memset(addr, pgnum) => Filled(flat, addr, if pgnum > 0 then pgnum else 0)
  }

  function ApplyAll(us: seq<Update>): map<nat, int> {
    if us == [] then map[] else Apply(ApplyAll(us[..|us|-1]), us[|us|-1])
  }

  // ---------------------------------------------------------------- what a fill writes

  /** The k-th page from an address on */
  function RangePage(addr: nat, k: nat): nat { Key(addr / 0x1000 + k) }

  ghost predicate Hits(addr: nat, n: nat, g: nat) { exists k: nat :: k < n && Key(FillPage(addr, k)) == g }

  ghost predicate Within(addr: nat, n: nat, g: nat) { exists k: nat :: k < n && RangePage(addr, k) == g }

  lemma {:induction false} FilledIs(flat: map<nat, int>, addr: nat, n: nat, g: nat)
    ensures Word(Filled(flat, addr, n), g) == if Hits(addr, n, g) then PATTERN else Word(flat, g)
  {
    hide FillPage, Key;
    if n > 0 {
      FilledIs(flat, addr, n - 1, g);
      if Key(FillPage(addr, n - 1)) == g {
        assert Hits(addr, n, g);
      } else {
        assert Hits(addr, n, g) <==> Hits(addr, n - 1, g);
      }
    }
  }

  lemma WrapsAway(x: int, p: int, r: nat)
    requires x == p * 0x1000 + r && r < 0x1000
    ensures x % 0x1_0000_0000_0000_0000 / 0x1000 % PAGES == p % PAGES
  {
    var q := p / 0x10_0000_0000_0000;
    var p' := p % 0x10_0000_0000_0000;
    assert x == q * 0x1_0000_0000_0000_0000 + (p' * 0x1000 + r);
    assert x % 0x1_0000_0000_0000_0000 == p' * 0x1000 + r;
    assert p == q * 128 * PAGES + p';
  }

  /** The k-th page of a fill lies as many pages from the first as its wrapped offset says. */
  lemma FillPageIs(addr: nat, k: nat)
    ensures FillOffset(k) % 0x1000 == 0 && -0x8_0000 <= FillOffset(k) / 0x1000 < 0x8_0000
    ensures Key(FillPage(addr, k)) == (addr / 0x1000 + FillOffset(k) / 0x1000) % PAGES
    ensures k < 0x8_0000 ==> FillOffset(k) / 0x1000 == k
    ensures k == 0x8_0000 ==> FillOffset(k) / 0x1000 == -0x8_0000
  {
    OffsetIsAligned(k);
    WrapsAway(addr + FillOffset(k), addr / 0x1000 + FillOffset(k) / 0x1000, addr % 0x1000);
  }

  lemma OffsetIsAligned(k: nat)
    ensures FillOffset(k) % 0x1000 == 0 && FillOffset(k) == FillOffset(k) / 0x1000 * 0x1000
    ensures (FillOffset(k) - k * 0x1000) % 0x1_0000_0000 == 0
    ensures -0x8_0000 <= FillOffset(k) / 0x1000 < 0x8_0000
    ensures k < 0x8_0000 ==> FillOffset(k) / 0x1000 == k
    ensures k == 0x8_0000 ==> FillOffset(k) / 0x1000 == -0x8_0000
  {
    var q, r := k / 0x10_0000, k % 0x10_0000;
    assert k * 0x1000 == q * 0x1_0000_0000 + r * 0x1000;
    assert k * 0x1000 % 0x1_0000_0000 == r * 0x1000;
  }

  /** A fill of up to the largest int writes exactly the pages of its range if and only if there are at
      most 2^19 of them; after that the product of ints overflows. */
  lemma FillsItsRangeIff(addr: nat, n: nat)
    requires n < 0x8000_0000
    ensures (forall g: nat :: Hits(addr, n, g) <==> Within(addr, n, g)) <==> n <= 0x8_0000
  {
    hide FillPage, FillOffset, Key;
    if n <= 0x8_0000 {
      forall g: nat ensures Hits(addr, n, g) <==> Within(addr, n, g) {
        SmallFill(addr, n, g);
      }
    } else {
      var g := Key(FillPage(addr, 0x8_0000));
      assert Hits(addr, n, g);
      BigFillLeaves(addr, n);
    }
  }

  lemma SmallFill(addr: nat, n: nat, g: nat)
    requires n <= 0x8_0000
    ensures Hits(addr, n, g) <==> Within(addr, n, g)
  {
    hide FillPage, Key, RangePage;
    forall k: nat | k < n ensures Key(FillPage(addr, k)) == RangePage(addr, k) {
      StaysInRange(addr, k);
    }
  }

  lemma StaysInRange(addr: nat, k: nat)
    requires k < 0x8_0000
    ensures Key(FillPage(addr, k)) == RangePage(addr, k)
  {
    FillPageIs(addr, k);
  }

  lemma BigFillLeaves(addr: nat, n: nat)
    requires 0x8_0000 < n < 0x8000_0000
    ensures !Within(addr, n, Key(FillPage(addr, 0x8_0000)))
  {
    hide FillPage, Key, RangePage;
    forall k: nat | k < n ensures RangePage(addr, k) != Key(FillPage(addr, 0x8_0000)) {
      Apart(addr, k);
    }
  }

  lemma Apart(addr: nat, k: nat)
    requires k < 0x8000_0000
    ensures RangePage(addr, k) != Key(FillPage(addr, 0x8_0000))
  {
    FillPageIs(addr, 0x8_0000);
    hide FillPage, FillOffset;
    assert (addr / 0x1000 + k) - (addr / 0x1000 - 0x8_0000) == k + 0x8_0000;
    NotCongruent(addr / 0x1000 + k, addr / 0x1000 - 0x8_0000);
  }

  lemma NotCongruent(a: int, b: int)
    requires 0 < a - b < PAGES
    ensures a % PAGES != b % PAGES
  {
    assert a == a / PAGES * PAGES + a % PAGES && b == b / PAGES * PAGES + b % PAGES;
  }

  /** A fill from address 0 over 2^19 + 1 pages leaves out the last of them and writes one at the other end
      of the address space. */
  lemma FillWrapsAround()
    ensures var flat := Apply(map[], Memset(0, 0x8_0001));
            && Word(flat, 0x8_0000) == 0 && Word(flat, PAGES - 0x8_0000) == PATTERN
  {
    LeftOut();
    WrittenInstead();
    FilledIs(map[], 0, 0x8_0001, 0x8_0000);
    FilledIs(map[], 0, 0x8_0001, PAGES - 0x8_0000);
    hide Hits, Filled, Word;
    assert Word(map[], 0x8_0000) == 0 by { NeverSet(0x8_0000); }
  }

  lemma NeverSet(g: nat)
    ensures Word(map[], g) == 0
  {
  }

  lemma LeftOut()
    ensures !Hits(0, 0x8_0001, 0x8_0000)
  {
    hide FillPage, FillOffset, Key;
    forall k: nat ensures Key(FillPage(0, k)) != 0x8_0000 {
      PageFromZero(k);
    }
  }

  lemma WrittenInstead()
    ensures Hits(0, 0x8_0001, PAGES - 0x8_0000)
  {
    hide FillPage, FillOffset, Key;
    PageFromZero(0x8_0000);
  }

  lemma PageFromZero(k: nat)
    ensures Key(FillPage(0, k)) != 0x8_0000
    ensures k == 0x8_0000 ==> Key(FillPage(0, k)) == PAGES - 0x8_0000
  {
    FillPageIs(0, k);
    hide FillPage, FillOffset, Key;
    var d := FillOffset(k) / 0x1000;
    if d < 0 {
      assert d % PAGES == d + PAGES;
    } else {
      assert d % PAGES == d;
    }
  }

  // ---------------------------------------------------------------- what reads back

  predicate Touches(u: Update, g: nat) {
    match u
    case SetFpn(pgn, _) => Key(pgn) == g
    case SetSwap(pgn, _, _) => Key(pgn) == g
    case Memset(addr, pgnum) => exists k: nat :: k < pgnum && Key(FillPage(addr, k)) == g
  }

  /** What a word decodes to after an update, each field cut to its width */
  predicate Shows(w: int, u: Update) {
    match u
    case SetFpn(_, fpn) => Pte.Present(w) && !Pte.Swapped(w) && Pte.Fpn(w) == fpn % Pte.FPN_SPAN
    case SetSwap(_, swptyp, swpoff) =>
      && Pte.Present(w) && Pte.Swapped(w)
      && Pte.SwpTyp(w) == swptyp % Pte.SWPTYP_SPAN && Pte.SwpOff(w) == swpoff % Pte.SWPOFF_SPAN
    case Memset(_, _) => w == 0xDEAD_BEEF
  }

  lemma WithFpnShows(w: int, pgn: nat, fpn: nat)
    requires 0 <= w < WORD
    ensures 0 <= Pte.WithFpn(w, fpn) < WORD && Shows(Pte.WithFpn(w, fpn), SetFpn(pgn, fpn))
  {
    Pte.WithFpnDecodes(w, fpn % Pte.FPN_SPAN);
    SetValCuts(ClrBit(SetBit(w, Pte.PRESENT), Pte.SWAPPED), fpn, 1, Pte.FPN_SPAN);
  }

  lemma WithSwap64Shows(w: int, pgn: nat, swptyp: nat, swpoff: nat)
    requires 0 <= w < WORD
    ensures 0 <= WithSwap64(w, swptyp, swpoff) < WORD && Shows(WithSwap64(w, swptyp, swpoff), SetSwap(pgn, swptyp, swpoff))
  {
    var flagged := SetBit(SetBit(w, Pte.PRESENT), Pte.SWAPPED);
    var typed := SetVal(flagged, swptyp % Pte.SWPTYP_SPAN, 1, Pte.SWPTYP_SPAN);
    SetValCuts(flagged, swptyp, 1, Pte.SWPTYP_SPAN);
    SetValCuts(typed, swpoff, Pte.SWPOFF_UNIT, Pte.SWPOFF_SPAN);
    hide SetVal, SetBit, Pte.SwpTyp, Pte.SwpOff, Pte.Present, Pte.Swapped;
    BothFlags(w);
    Pte.SwpTypOfSetVal(flagged, swptyp % Pte.SWPTYP_SPAN);
    Pte.SwpOffOfSetVal(typed, swpoff % Pte.SWPOFF_SPAN, Pte.PRESENT + Pte.SWAPPED);
    FlagsShow(WithSwap64(w, swptyp, swpoff));
  }

  lemma BothFlags(w: int)
    requires 0 <= w < WORD
    ensures Pte.PRESENT + Pte.SWAPPED <= SetBit(SetBit(w, Pte.PRESENT), Pte.SWAPPED) < WORD
  {
  }

  lemma FlagsShow(w: int)
    requires Pte.PRESENT + Pte.SWAPPED <= w < WORD
    ensures Pte.Present(w) && Pte.Swapped(w)
  {
  }

  lemma UpdateShows(flat: map<nat, int>, u: Update, g: nat)
    requires 0 <= Word(flat, g) < WORD
    ensures 0 <= Word(Apply(flat, u), g) < WORD
    ensures if Touches(u, g) then Shows(Word(Apply(flat, u), g), u) else Word(Apply(flat, u), g) == Word(flat, g)
  {
    hide Pte.WithFpn, WithSwap64, Pte.Present, Pte.Swapped, Pte.Fpn, Pte.SwpOff, Pte.SwpTyp, FillPage, Key;
    match u {
      case SetFpn(pgn, fpn) =>
        if Key(pgn) == g { WithFpnShows(Word(flat, g), pgn, fpn); }
      case SetSwap(pgn, swptyp, swpoff) =>
        if Key(pgn) == g { WithSwap64Shows(Word(flat, g), pgn, swptyp, swpoff); }
      case Memset(addr, pgnum) =>
        FilledIs(flat, addr, if pgnum > 0 then pgnum else 0, g);
    }
  }

  /** Update n is the last one that touches the page. */
  predicate TouchesLast(us: seq<Update>, n: nat, g: nat) {
    n < |us| && Touches(us[n], g) && forall k :: n < k < |us| ==> !Touches(us[k], g)
  }

  predicate NeverTouched(us: seq<Update>, g: nat) { forall k :: 0 <= k < |us| ==> !Touches(us[k], g) }

  /** After any updates a page reads back what the last one that touched it wrote, flags, frame or type and
      offset, and 0 if there was none. */
  lemma {:induction false} LastUpdateShows(us: seq<Update>, n: nat, g: nat)
    ensures 0 <= Word(ApplyAll(us), g) < WORD
    ensures TouchesLast(us, n, g) ==> Shows(Word(ApplyAll(us), g), us[n])
    ensures NeverTouched(us, g) ==> Word(ApplyAll(us), g) == 0
  {
    hide Touches, Shows, Apply;
    if us == [] {
      NeverSet(g);
    } else {
      var last := |us| - 1;
      var before := us[..last];
      LastUpdateShows(before, n, g);
      UpdateShows(ApplyAll(before), us[last], g);
      assert n < last && TouchesLast(us, n, g) ==> !Touches(us[last], g) && TouchesLast(before, n, g) && before[n] == us[n];
      assert NeverTouched(us, g) ==> !Touches(us[last], g) && NeverTouched(before, g);
    }
  }

  // ---------------------------------------------------------------- the tables

  type Path = seq<nat>

  function ZeroTable(): seq<int> { seq(TABLE_SIZE, _ => 0) }

  /** `mem` is the memory the tables live in, by address, and `at` says which table each directory path
      reaches: slot i of the table on path p holds the address of the table on path p + [i], or 0 if
      there is none, and no two paths reach the same table. */
  ghost predicate Linked(mem: map<nat, seq<int>>, at: map<Path, nat>, root: nat) {
    && Shape(mem, at, root)
    && (forall p, i :: p in at && |p| < 4 && 0 <= i < TABLE_SIZE ==> Slot(mem, at, p, i))
  }

  ghost predicate Shape(mem: map<nat, seq<int>>, at: map<Path, nat>, root: nat) {
    [] in at && at[[]] == root && Sized(mem, at) && Distinct(at) && Closed(at)
  }

  ghost predicate Sized(mem: map<nat, seq<int>>, at: map<Path, nat>) {
    forall p <- at :: |p| <= 4 && at[p] in mem && at[p] > 0 && |mem[at[p]]| == TABLE_SIZE
  }

  ghost predicate Distinct(at: map<Path, nat>) { forall p, q :: p in at && q in at && at[p] == at[q] ==> p == q }

  ghost predicate Closed(at: map<Path, nat>) { forall p <- at :: p != [] ==> p[..|p|-1] in at }

  ghost predicate Slot(mem: map<nat, seq<int>>, at: map<Path, nat>, p: Path, i: nat)
    requires p in at && at[p] in mem && i < |mem[at[p]]|
  {
    mem[at[p]][i] == if p + [i] in at then at[p + [i]] else 0
  }

  predicate IsIndex(idx: Path) { |idx| == 5 && forall k :: 0 <= k < 5 ==> idx[k] < TABLE_SIZE }

  /** The word the five indices lead to, 0 if its last-level table does not exist. */
  ghost function LeafAt(mem: map<nat, seq<int>>, at: map<Path, nat>, root: nat, idx: Path): int
    requires Linked(mem, at, root) && IsIndex(idx)
  {
    if idx[..4] in at then mem[at[idx[..4]]][idx[4]] else 0
  }

  /** The entry for a page number. */
  ghost function Leaf(mem: map<nat, seq<int>>, at: map<Path, nat>, root: nat, g: nat): int
    requires Linked(mem, at, root)
  {
    LeafAt(mem, at, root, Indices(g))
  }

  /** The table refines the flat map, on all page numbers below 2^45. */
  ghost predicate Refines(mem: map<nat, seq<int>>, at: map<Path, nat>, root: nat, flat: map<nat, int>)
    requires Linked(mem, at, root)
  {
    forall g :: 0 <= g < PAGES ==> Leaf(mem, at, root, g) == Word(flat, g)
  }

  lemma SnocIsInjective(p: Path, i: nat, q: Path, j: nat)
    ensures p + [i] == q + [j] <==> p == q && i == j
  {
    if p + [i] == q + [j] {
      assert (p + [i])[..|p|] == p && (q + [j])[..|q|] == q;
      assert (p + [i])[|p|] == i && (q + [j])[|q|] == j;
    }
  }

  lemma NewTableIsSized(mem: map<nat, seq<int>>, at: map<Path, nat>, path: Path, i: nat, a: nat)
    requires Sized(mem, at) && path in at && |path| < 4 && i < TABLE_SIZE && a > 0 && a !in mem
    ensures var tbl := at[path];
            Sized(mem[a := ZeroTable()][tbl := mem[tbl][i := a]], at[path + [i] := a])
  {
  }

  lemma NewPathIsDistinct(at: map<Path, nat>, p: Path, a: nat)
    requires Distinct(at) && p !in at && forall q <- at :: at[q] != a
    ensures Distinct(at[p := a])
  {
  }

  lemma NewPathIsClosed(at: map<Path, nat>, path: Path, i: nat, a: nat)
    requires Closed(at) && path in at
    ensures Closed(at[path + [i] := a])
  {
    var at' := at[path + [i] := a];
    forall p | p in at' && p != [] ensures p[..|p|-1] in at' {
      if p == path + [i] {
        assert p[..|p|-1] == path;
      }
    }
  }

  lemma NewTableShape(mem: map<nat, seq<int>>, at: map<Path, nat>, root: nat, path: Path, i: nat, a: nat)
    requires Shape(mem, at, root) && path in at && |path| < 4 && i < TABLE_SIZE && path + [i] !in at
    requires a > 0 && a !in mem
    ensures at[path] in mem && |mem[at[path]]| == TABLE_SIZE
    ensures var tbl := at[path];
            Shape(mem[a := ZeroTable()][tbl := mem[tbl][i := a]], at[path + [i] := a], root)
  {
    assert forall q <- at :: at[q] != a;
    assert at[path] in mem && |mem[at[path]]| == TABLE_SIZE && path + [i] != [];
    hide Sized, Distinct, Closed;
    NewTableIsSized(mem, at, path, i, a);
    NewPathIsDistinct(at, path + [i], a);
    NewPathIsClosed(at, path, i, a);
  }

  lemma NewTableSlot(mem: map<nat, seq<int>>, at: map<Path, nat>, root: nat, path: Path, i: nat, a: nat, p: Path, j: nat)
    requires Shape(mem, at, root) && path in at && |path| < 4 && i < TABLE_SIZE && path + [i] !in at
    requires a > 0 && a !in mem && |p| < 4 && j < TABLE_SIZE
    requires p in at ==> Slot(mem, at, p, j)
    requires p in at || p == path + [i]
    ensures var tbl := at[path];
            var mem', at' := mem[a := ZeroTable()][tbl := mem[tbl][i := a]], at[path + [i] := a];
            at'[p] in mem' && |mem'[at'[p]]| == TABLE_SIZE && Slot(mem', at', p, j)
  {
    SnocIsInjective(p, j, path, i);
    if p == path + [i] {
      assert (p + [j])[..|p|] == p && (p + [j])[..|p + [j]| - 1] == p;
      assert p + [j] !in at;
    } else if p == path {
      assert at[p] == at[path];
    } else {
      assert at[p] != at[path] && at[p] != a;
    }
  }

  /** Hanging a fresh zeroed table into an empty directory slot. */
  lemma NewTableLinks(mem: map<nat, seq<int>>, at: map<Path, nat>, root: nat, path: Path, i: nat, a: nat)
    requires Linked(mem, at, root) && path in at && |path| < 4 && i < TABLE_SIZE && path + [i] !in at
    requires a > 0 && a !in mem
    ensures var tbl := at[path];
            Linked(mem[a := ZeroTable()][tbl := mem[tbl][i := a]], at[path + [i] := a], root)
  {
    var tbl := at[path];
    var mem', at' := mem[a := ZeroTable()][tbl := mem[tbl][i := a]], at[path + [i] := a];
    NewTableShape(mem, at, root, path, i, a);
    hide Shape, Slot;
    forall p, j: nat | p in at' && |p| < 4 && 0 <= j < TABLE_SIZE
      ensures at'[p] in mem' && j < |mem'[at'[p]]| && Slot(mem', at', p, j)
    {
      NewTableSlot(mem, at, root, path, i, a, p, j);
    }
  }

  lemma NewTableLeaves(mem: map<nat, seq<int>>, at: map<Path, nat>, root: nat, path: Path, i: nat, a: nat, idx: Path)
    requires Linked(mem, at, root) && path in at && |path| < 4 && i < TABLE_SIZE && path + [i] !in at
    requires a > 0 && a !in mem && IsIndex(idx)
    requires var tbl := at[path];
             Linked(mem[a := ZeroTable()][tbl := mem[tbl][i := a]], at[path + [i] := a], root)
    ensures var tbl := at[path];
            LeafAt(mem[a := ZeroTable()][tbl := mem[tbl][i := a]], at[path + [i] := a], root, idx)
            == LeafAt(mem, at, root, idx)
  {
    hide Slot, Closed;
    if idx[..4] in at {
      assert at[idx[..4]] != at[path] && at[idx[..4]] != a;
    }
  }

  lemma NewTableKeeps(mem: map<nat, seq<int>>, at: map<Path, nat>, root: nat, path: Path, i: nat, a: nat, flat: map<nat, int>)
    requires Linked(mem, at, root) && path in at && |path| < 4 && i < TABLE_SIZE && path + [i] !in at
    requires a > 0 && a !in mem && Refines(mem, at, root, flat)
    ensures var tbl := at[path];
            var mem', at' := mem[a := ZeroTable()][tbl := mem[tbl][i := a]], at[path + [i] := a];
            Linked(mem', at', root) && Refines(mem', at', root, flat)
  {
    NewTableLinks(mem, at, root, path, i, a);
    var tbl := at[path];
    var mem', at' := mem[a := ZeroTable()][tbl := mem[tbl][i := a]], at[path + [i] := a];
    hide Indices, LeafAt, Linked;
    forall g | 0 <= g < PAGES ensures Leaf(mem', at', root, g) == Word(flat, g) {
      NewTableLeaves(mem, at, root, path, i, a, Indices(g));
      assert Leaf(mem, at, root, g) == Word(flat, g);
    }
  }

  lemma WriteShape(mem: map<nat, seq<int>>, at: map<Path, nat>, root: nat, idx: Path, w: int)
    requires Shape(mem, at, root) && IsIndex(idx) && idx[..4] in at
    ensures var tbl := at[idx[..4]];
            Shape(mem[tbl := mem[tbl][idx[4] := w]], at, root)
  {
  }

  /** Writing one word of a last-level table. */
  lemma WriteLinks(mem: map<nat, seq<int>>, at: map<Path, nat>, root: nat, idx: Path, w: int)
    requires Linked(mem, at, root) && IsIndex(idx) && idx[..4] in at
    ensures var tbl := at[idx[..4]];
            Linked(mem[tbl := mem[tbl][idx[4] := w]], at, root)
  {
    var tbl := at[idx[..4]];
    var mem' := mem[tbl := mem[tbl][idx[4] := w]];
    WriteShape(mem, at, root, idx, w);
    forall p, j: nat | p in at && |p| < 4 && 0 <= j < TABLE_SIZE ensures Slot(mem', at, p, j) {
      assert Slot(mem, at, p, j) && at[p] != tbl;
    }
  }

  lemma WriteLeaves(mem: map<nat, seq<int>>, at: map<Path, nat>, root: nat, idx: Path, w: int, jdx: Path)
    requires Linked(mem, at, root) && IsIndex(idx) && IsIndex(jdx) && idx[..4] in at
    requires var tbl := at[idx[..4]]; Linked(mem[tbl := mem[tbl][idx[4] := w]], at, root)
    ensures var tbl := at[idx[..4]];
            LeafAt(mem[tbl := mem[tbl][idx[4] := w]], at, root, jdx) == if idx == jdx then w else LeafAt(mem, at, root, jdx)
  {
    hide Slot, Closed;
    if idx[..4] == jdx[..4] {
      assert idx == idx[..4] + [idx[4]] && jdx == jdx[..4] + [jdx[4]];
    } else if jdx[..4] in at {
      assert at[idx[..4]] != at[jdx[..4]];
    }
  }

  /** It changes the entry of one page, as the flat map does. */
  lemma WriteKeeps(mem: map<nat, seq<int>>, at: map<Path, nat>, root: nat, g: nat, w: int, flat: map<nat, int>)
    requires Linked(mem, at, root) && Refines(mem, at, root, flat) && g < PAGES && Indices(g)[..4] in at
    ensures var idx := Indices(g);
            var tbl := at[idx[..4]];
            var mem' := mem[tbl := mem[tbl][idx[4] := w]];
            Linked(mem', at, root) && Refines(mem', at, root, flat[g := w])
    ensures var idx := Indices(g);
            mem[at[idx[..4]]][idx[4]] == Word(flat, g)
  {
    var idx := Indices(g);
    var tbl := at[idx[..4]];
    var mem' := mem[tbl := mem[tbl][idx[4] := w]];
    hide Indices;
    assert Leaf(mem, at, root, g) == Word(flat, g);
    WriteLinks(mem, at, root, idx, w);
    hide LeafAt, Linked;
    forall h | 0 <= h < PAGES ensures Leaf(mem', at, root, h) == Word(flat[g := w], h) {
      OwnIndices(g, h);
      WriteLeaves(mem, at, root, idx, w, Indices(h));
      assert Leaf(mem, at, root, h) == Word(flat, h);
    }
  }

  class Table {
    const pgd: nat
    var mem: map<nat, seq<int>>
    var next: nat
    ghost var at: map<Path, nat>

    ghost predicate Valid()
      reads this
    {
      Linked(mem, at, pgd) && forall a <- mem :: a < next
    }

    ghost predicate Holds(flat: map<nat, int>)
      requires Valid()
      reads this
    {
      Refines(mem, at, pgd, flat)
    }

    /** The top directory, as init_mm allocates it. */
    constructor ()
      ensures Valid() && Holds(map[])
    {
      pgd := 1;
      mem := map[1 := ZeroTable()];
      next := 2;
      at := map[[] := 1];
    }

    /** malloc of one table followed by memset */
    method NewTable() returns (a: nat)
      requires forall b <- mem :: b < next
      modifies `mem, `next
      ensures a !in old(mem) && a > 0 && mem == old(mem)[a := ZeroTable()]
      ensures forall b <- mem :: b < next
    {
      a := if next == 0 then 1 else next;
      mem := mem[a := ZeroTable()];
      next := a + 1;
    }

    /** One level of the walk: allocate the table the next index should lead to, if there is none. */
    method Descend(tbl: nat, i: nat, ghost idx: seq<nat>, ghost level: nat, ghost flat: map<nat, int>) returns (child: nat)
      requires Valid() && Holds(flat) && IsIndex(idx) && level < 4 && i == idx[level]
      requires Reaches(idx[..level], tbl)
      modifies `mem, `next, `at
      ensures Valid() && Holds(flat) && Reaches(idx[..level + 1], child)
    {
      hide Linked, Refines;
      ghost var path := idx[..level];
      assert path + [i] == idx[..level + 1];
      DirectoryWord(path, i);
      if mem[tbl][i] == 0 {
        ghost var mem0 := mem;
        var a := NewTable();
        NewTableKeeps(mem0, at, pgd, path, i, a, flat);
        mem := mem[tbl := mem[tbl][i := a]];
        at := at[path + [i] := a];
      }
      child := mem[tbl][i];
    }

    /** A word of a directory is 0 exactly if there is no table behind it, and its address otherwise. */
    lemma DirectoryWord(path: Path, i: nat)
      requires Valid() && path in at && |path| < 4 && i < TABLE_SIZE
      ensures at[path] in mem && |mem[at[path]]| == TABLE_SIZE
      ensures mem[at[path]][i] == 0 <==> path + [i] !in at
      ensures path + [i] in at ==> mem[at[path]][i] == at[path + [i]]
    {
      hide Distinct, Closed;
      assert Slot(mem, at, path, i);
    }

    ghost predicate Reaches(p: Path, a: nat)
      reads this
    {
      p in at && at[p] == a
    }

    /** The walk all setters make: the address of the last-level table for a page number. */
    method Walk(idx: seq<nat>, ghost flat: map<nat, int>) returns (pt: nat)
      requires Valid() && Holds(flat) && IsIndex(idx)
      modifies `mem, `next, `at
      ensures Valid() && Holds(flat) && Reaches(idx[..4], pt)
    {
      RootIsLinked();
      hide Valid, Refines, Reaches;
      assert idx[..0] == [];
      var p4d := Descend(pgd, idx[0], idx, 0, flat);
      var pud := Descend(p4d, idx[1], idx, 1, flat);
      var pmd := Descend(pud, idx[2], idx, 2, flat);
      pt := Descend(pmd, idx[3], idx, 3, flat);
    }

    lemma RootIsLinked()
      requires Valid()
      ensures Reaches([], pgd)
    {
    }

    lemma TableIsThere(p: Path)
      requires Valid() && p in at
      ensures at[p] in mem && |mem[at[p]]| == TABLE_SIZE
    {
    }

    method PteSetFpn(pgn: nat, fpn: nat, ghost flat: map<nat, int>)
      requires Valid() && Holds(flat)
      modifies `mem, `next, `at
      ensures Valid() && Holds(Apply(flat, SetFpn(pgn, fpn)))
    {
      hide Indices, Pte.WithFpn, Linked, Refines;
      var idx := Indices(pgn);
      var tbl := Walk(idx, flat);
      TableIsThere(idx[..4]);
      var pte := Pte.WithFpn(mem[tbl][idx[4]], fpn);
      IndicesAreInjective(pgn, Key(pgn));
      WriteKeeps(mem, at, pgd, Key(pgn), pte, flat);
      mem := mem[tbl := mem[tbl][idx[4] := pte]];
    }

    method PteSetSwap(pgn: nat, swptyp: nat, swpoff: nat, ghost flat: map<nat, int>)
      requires Valid() && Holds(flat)
      modifies `mem, `next, `at
      ensures Valid() && Holds(Apply(flat, SetSwap(pgn, swptyp, swpoff)))
    {
      hide Indices, WithSwap64, Linked, Refines;
      var idx := Indices(pgn);
      var tbl := Walk(idx, flat);
      TableIsThere(idx[..4]);
      var pte := WithSwap64(mem[tbl][idx[4]], swptyp, swpoff);
      IndicesAreInjective(pgn, Key(pgn));
      WriteKeeps(mem, at, pgd, Key(pgn), pte, flat);
      mem := mem[tbl := mem[tbl][idx[4] := pte]];
    }

    method VmapPgdMemset(addr: nat, pgnum: int, ghost flat: map<nat, int>)
      requires Valid() && Holds(flat)
      modifies `mem, `next, `at
      ensures Valid() && Holds(Apply(flat, Memset(addr, pgnum)))
    {
      hide Indices, Linked, Refines, FillPage;
      var pgit := 0;
      while pgit < pgnum
        invariant 0 <= pgit && (pgit <= pgnum || pgit == 0)
        invariant Valid() && Holds(Filled(flat, addr, pgit))
      {
        ghost var before := Filled(flat, addr, pgit);
        var pgn := FillPage(addr, pgit);
        var idx := Indices(pgn);
        var tbl := Walk(idx, before);
        TableIsThere(idx[..4]);
        IndicesAreInjective(pgn, Key(pgn));
        WriteKeeps(mem, at, pgd, Key(pgn), PATTERN, before);
        mem := mem[tbl := mem[tbl][idx[4] := PATTERN]];
        pgit := pgit + 1;
      }
    }

    /** pte_get_entry: a missing level reads as 0; the word is cut to 32 bits. */
    method PteGetEntry(pgn: nat, ghost flat: map<nat, int>) returns (pte: int)
      requires Valid() && Holds(flat)
      ensures pte == Word(flat, Key(pgn)) % WORD
    {
      hide Indices, Linked, Refines;
      var idx := Indices(pgn);
      EntryIs(pgn, flat);
      assert idx[..0] == [];
      RootIsLinked();
      var tbl := pgd;
      for level := 0 to 4
        invariant idx[..level] in at && at[idx[..level]] == tbl
      {
        assert idx[..level] + [idx[level]] == idx[..level + 1];
        DirectoryWord(idx[..level], idx[level]);
        if mem[tbl][idx[level]] == 0 {
          MissingLevel(idx, level + 1);
          return 0;
        }
        tbl := mem[tbl][idx[level]];
      }
      TableIsThere(idx[..4]);
      return mem[tbl][idx[4]] % WORD;
    }

    lemma EntryIs(pgn: nat, flat: map<nat, int>)
      requires Valid() && Holds(flat)
      ensures var idx := Indices(pgn);
              && (idx[..4] in at ==> at[idx[..4]] in mem && |mem[at[idx[..4]]]| == TABLE_SIZE)
              && Word(flat, Key(pgn)) == if idx[..4] in at then mem[at[idx[..4]]][idx[4]] else 0
    {
      hide Indices;
      IndicesAreInjective(pgn, Key(pgn));
      assert Leaf(mem, at, pgd, Key(pgn)) == Word(flat, Key(pgn));
    }

    lemma {:induction false} MissingLevel(idx: seq<nat>, level: nat)
      requires Valid() && |idx| == 5 && level <= 4 && idx[..level] !in at
      ensures idx[..4] !in at
      decreases 4 - level
    {
      if level < 4 {
        assert idx[..level + 1][..level] == idx[..level];
        MissingLevel(idx, level + 1);
      }
    }

    /** After any sequence of updates the five-level table holds exactly what a flat map does. */
    method Replay(us: seq<Update>)
      requires Valid() && Holds(map[])
      modifies `mem, `next, `at
      ensures Valid() && Holds(ApplyAll(us))
    {
      hide Linked, Refines;
      for n := 0 to |us|
        invariant Valid() && Holds(ApplyAll(us[..n]))
      {
        ghost var flat := ApplyAll(us[..n]);
        assert us[..n + 1][..n] == us[..n];
        match us[n] {
          case SetFpn(pgn, fpn) => PteSetFpn(pgn, fpn, flat);
          case SetSwap(pgn, swptyp, swpoff) => PteSetSwap(pgn, swptyp, swpoff, flat);
          case Memset(addr, pgnum) => VmapPgdMemset(addr, pgnum, flat);
        }
      }
      assert us[..|us|] == us;
    }

    /** Reading a page back after any sequence of updates */
    method ReadBack(us: seq<Update>, pgn: nat) returns (pte: int)
      requires Valid() && Holds(map[])
      modifies `mem, `next, `at
      ensures Valid() && Holds(ApplyAll(us))
      ensures forall n: nat :: TouchesLast(us, n, Key(pgn)) ==> Shows(pte, us[n])
      ensures NeverTouched(us, Key(pgn)) ==> pte == 0
    {
      hide Linked, Refines, Touches, Shows, Key, ApplyAll;
      Replay(us);
      pte := PteGetEntry(pgn, ApplyAll(us));
      LastUpdateShows(us, 0, Key(pgn));
      forall n: nat ensures TouchesLast(us, n, Key(pgn)) ==> Shows(pte, us[n]) {
        LastUpdateShows(us, n, Key(pgn));
      }
    }
  }
}
