/** The firmware part of the start-up plan (crates/radio-core/src/init_plan.rs): pages of register blocks. */
module FirmwarePlan {
  import opened RadioTypes

  const FW_START := 0x1000
  const PAGE_SIZE := 4096
  const BLOCK_SIZE := 196
  const REMAINDER_SIZE := 8

  datatype Transfer = ReadSelector | SelectPage(page: nat) | WriteBlock(address: nat, len: nat)

  /** The longest block that still fits. */
  function NextLen(remaining: nat): (len: nat)
    requires remaining > 0
    ensures 0 < len <= remaining
  {
    if remaining >= BLOCK_SIZE then BLOCK_SIZE else if remaining >= REMAINDER_SIZE then REMAINDER_SIZE else 1
  }

  /** The blocks of a page from `offset` on. */
  function PageBlocks(offset: nat, pageLen: nat): seq<Transfer>
    requires offset <= pageLen
    decreases pageLen - offset
  {
    if offset == pageLen then []
    else
      var len := NextLen(pageLen - offset);
      [WriteBlock(FW_START + offset, len)] + PageBlocks(offset + len, pageLen)
  }

  function PagePlan(page: nat, pageLen: nat): seq<Transfer> {
    [ReadSelector, SelectPage(page)] + PageBlocks(0, pageLen)
  }

  /** How much of what is left goes into the next page. */
  function PageLen(rest: nat): (len: nat)
    requires rest > 0
    ensures 0 < len <= rest && len <= PAGE_SIZE
  {
    if rest < PAGE_SIZE then rest else PAGE_SIZE
  }

  /** The plan for `n` bytes, its first page being `page`. */
  function Plan(page: nat, n: nat): seq<Transfer>
    decreases n
  {
    if n == 0 then [] else PagePlan(page, PageLen(n)) + Plan(page + 1, n - PageLen(n))
  }

  class Planner {
    var transfers: seq<Transfer>

    constructor ()
      ensures transfers == []
    {
      transfers := [];
    }

    method PushBlock(offset: nat, pageLen: nat)
      requires offset < pageLen
      modifies this
      ensures transfers == old(transfers) + [WriteBlock(FW_START + offset, NextLen(pageLen - offset))]
      ensures transfers + PageBlocks(offset + NextLen(pageLen - offset), pageLen)
           == old(transfers) + PageBlocks(offset, pageLen)
    {
      transfers := transfers + [WriteBlock(FW_START + offset, NextLen(pageLen - offset))];
    }

    /** Three loops, one for each block size; together they take the longest block that fits each time. */
    method AddPageBlocks(pageLen: nat)
      requires pageLen <= PAGE_SIZE
      modifies this
      ensures transfers == old(transfers) + PageBlocks(0, pageLen)
    {
      var offset := 0;
      var blockCount := pageLen / BLOCK_SIZE;
      for i := 0 to blockCount
        invariant offset == i * BLOCK_SIZE <= pageLen
        invariant transfers + PageBlocks(offset, pageLen) == old(transfers) + PageBlocks(0, pageLen)
      {
        PushBlock(offset, pageLen);
        offset := offset + BLOCK_SIZE;
      }
      var remain := pageLen - offset;
      var start := offset;
      for i := 0 to remain / REMAINDER_SIZE
        invariant offset == start + i * REMAINDER_SIZE <= pageLen
        invariant transfers + PageBlocks(offset, pageLen) == old(transfers) + PageBlocks(0, pageLen)
      {
        PushBlock(offset, pageLen);
        offset := offset + REMAINDER_SIZE;
      }
      for i := offset to pageLen
        invariant offset == i
        invariant transfers + PageBlocks(offset, pageLen) == old(transfers) + PageBlocks(0, pageLen)
      {
        PushBlock(offset, pageLen);
        offset := offset + 1;
      }
      assert transfers + [] == transfers;
    }

    method AddPage(page: nat, pageLen: nat)
      requires pageLen <= PAGE_SIZE
      modifies this
      ensures transfers == old(transfers) + PagePlan(page, pageLen)
    {
      transfers := transfers + [ReadSelector];
      transfers := transfers + [SelectPage(page)];
      AddPageBlocks(pageLen);
    }

    method AddFirmwareTransfers(payload: Bytes)
      modifies this
      ensures transfers == old(transfers) + Plan(0, |payload|)
    {
      var page: nat, rest: nat := 0, |payload|;
      while rest > 0
        invariant transfers + Plan(page, rest) == old(transfers) + Plan(0, |payload|)
      {
        var chunkLen := PageLen(rest);
        Regroup(transfers, PagePlan(page, chunkLen), Plan(page + 1, rest - chunkLen));
        AddPage(page, chunkLen);
        page, rest := page + 1, rest - chunkLen;
      }
      assert transfers + [] == transfers;
    }
  }

  lemma Regroup(a: seq<Transfer>, b: seq<Transfer>, c: seq<Transfer>)
    ensures (a + b) + c == a + (b + c)
  {
  }

  // ---------------------------------------------------------------- what a plan writes

  datatype Place = Place(page: nat, address: nat)

  function Span(page: nat, address: nat, len: nat): (places: seq<Place>)
    ensures |places| == len
  {
    seq(len, i requires 0 <= i < len => Place(page, address + i))
  }

  /** The places written, byte by byte and in order, `page` being selected at first. */
  function Places(transfers: seq<Transfer>, page: nat): seq<Place> {
    if transfers == [] then []
    else match transfers[0]
      case ReadSelector => Places(transfers[1..], page)
      case SelectPage(p) => Places(transfers[1..], p)
      case WriteBlock(address, len) => Span(page, address, len) + Places(transfers[1..], page)
  }

  /** Where the k-th byte belongs. */
  function PlaceOf(k: nat): Place {
    Place(k / PAGE_SIZE, FW_START + k % PAGE_SIZE)
  }

  lemma {:induction false} BlockPlaces(offset: nat, pageLen: nat, page: nat, more: seq<Transfer>)
    requires offset <= pageLen
    ensures Places(PageBlocks(offset, pageLen) + more, page)
         == Span(page, FW_START + offset, pageLen - offset) + Places(more, page)
    decreases pageLen - offset
  {
    var t := PageBlocks(offset, pageLen);
    if offset == pageLen {
      assert t + more == more;
    } else {
      var len := NextLen(pageLen - offset);
      assert (t + more)[1..] == PageBlocks(offset + len, pageLen) + more;
      BlockPlaces(offset + len, pageLen, page, more);
      assert Span(page, FW_START + offset, pageLen - offset)
          == Span(page, FW_START + offset, len) + Span(page, FW_START + (offset + len), pageLen - (offset + len));
    }
  }

  lemma PagePlaces(page: nat, pageLen: nat, more: seq<Transfer>, selected: nat)
    ensures Places(PagePlan(page, pageLen) + more, selected) == Span(page, FW_START, pageLen) + Places(more, page)
  {
    var t := PagePlan(page, pageLen) + more;
    assert t[1..][1..] == PageBlocks(0, pageLen) + more;
    assert t[0] == ReadSelector && t[1..][0] == SelectPage(page);
    BlockPlaces(0, pageLen, page, more);
  }

  function PlacesFrom(page: nat, n: nat): (places: seq<Place>)
    ensures |places| == n
  {
    seq(n, k requires 0 <= k < n => PlaceOf(page * PAGE_SIZE + k))
  }

  lemma InPage(page: nat, k: nat)
    requires k < PAGE_SIZE
    ensures PlaceOf(page * PAGE_SIZE + k) == Place(page, FW_START + k)
  {
  }

  lemma OnePage(page: nat, n: nat)
    requires n <= PAGE_SIZE
    ensures Span(page, FW_START, n) == PlacesFrom(page, n)
  {
    forall k | 0 <= k < n
      ensures Span(page, FW_START, n)[k] == PlacesFrom(page, n)[k]
    {
      InPage(page, k);
    }
  }

  lemma PlacesNext(page: nat, n: nat)
    requires n > 0
    ensures Span(page, FW_START, PageLen(n)) + PlacesFrom(page + 1, n - PageLen(n)) == PlacesFrom(page, n)
  {
    OnePage(page, PageLen(n));
  }

  lemma PlanPlaces(page: nat, n: nat, selected: nat)
    requires n > 0
    ensures Places(Plan(page, n), selected)
         == Span(page, FW_START, PageLen(n)) + Places(Plan(page + 1, n - PageLen(n)), page)
  {
    PagePlaces(page, PageLen(n), Plan(page + 1, n - PageLen(n)), selected);
  }

  lemma {:induction false} PlanWritesFrom(page: nat, n: nat, selected: nat)
    ensures Places(Plan(page, n), selected) == PlacesFrom(page, n)
    decreases n
  {
    if n != 0 {
      PlanPlaces(page, n, selected);
      PlanWritesFrom(page + 1, n - PageLen(n), page);
      PlacesNext(page, n);
    }
  }

  lemma PlacesDiffer(i: nat, j: nat)
    requires PlaceOf(i) == PlaceOf(j)
    ensures i == j
  {
    assert i == i / PAGE_SIZE * PAGE_SIZE + i % PAGE_SIZE && j == j / PAGE_SIZE * PAGE_SIZE + j % PAGE_SIZE;
  }

  /** Whatever the size, and whichever page was selected before, the plan writes each byte of the payload
      in order, the k-th to page k / 4096 at address 0x1000 + k % 4096, and nothing else; and no place is
      written twice. */
  lemma PlanWritesEveryByteOnce(n: nat, selected: nat)
    ensures var places := Places(Plan(0, n), selected);
      && |places| == n
      && (forall k: nat | k < n :: places[k] == PlaceOf(k))
      && forall i: nat, j: nat | i < j < n :: places[i] != places[j]
  {
    PlanWritesFrom(0, n, selected);
    var places := Places(Plan(0, n), selected);
    forall i: nat, j: nat | i < j < n
      ensures places[i] != places[j]
    {
      if PlaceOf(i) == PlaceOf(j) {
        PlacesDiffer(i, j);
      }
    }
  }

  // ---------------------------------------------------------------- blocks and pages

  predicate GoodBlock(t: Transfer) {
    t.WriteBlock? ==>
      t.len in {BLOCK_SIZE, REMAINDER_SIZE, 1} && FW_START <= t.address && t.address + t.len <= FW_START + PAGE_SIZE
  }

  lemma {:induction false} GoodPage(offset: nat, pageLen: nat)
    requires offset <= pageLen <= PAGE_SIZE
    ensures forall t | t in PageBlocks(offset, pageLen) :: GoodBlock(t)
    decreases pageLen - offset
  {
    if offset < pageLen {
      GoodPage(offset + NextLen(pageLen - offset), pageLen);
    }
  }

  /** Every block has one of the three sizes and stays within the window of a page. */
  lemma {:induction false} GoodPlan(page: nat, n: nat)
    ensures forall t | t in Plan(page, n) :: GoodBlock(t)
    decreases n
  {
    if n != 0 {
      var len := PageLen(n);
      GoodPage(0, len);
      GoodPlan(page + 1, n - len);
    }
  }

  function Selected(transfers: seq<Transfer>): seq<nat> {
    if transfers == [] then []
    else (if transfers[0].SelectPage? then [transfers[0].page] else []) + Selected(transfers[1..])
  }

  lemma {:induction false} BlocksSelectNothing(offset: nat, pageLen: nat, more: seq<Transfer>)
    requires offset <= pageLen
    ensures Selected(PageBlocks(offset, pageLen) + more) == Selected(more)
    decreases pageLen - offset
  {
    var t := PageBlocks(offset, pageLen);
    if offset == pageLen {
      assert t + more == more;
    } else {
      var len := NextLen(pageLen - offset);
      assert (t + more)[1..] == PageBlocks(offset + len, pageLen) + more;
      BlocksSelectNothing(offset + len, pageLen, more);
    }
  }

  lemma PageSelects(page: nat, pageLen: nat, more: seq<Transfer>)
    ensures Selected(PagePlan(page, pageLen) + more) == [page] + Selected(more)
  {
    var t := PagePlan(page, pageLen) + more;
    assert t[1..][1..] == PageBlocks(0, pageLen) + more;
    assert t[0] == ReadSelector && t[1..][0] == SelectPage(page);
    BlocksSelectNothing(0, pageLen, more);
  }

  function PagesFrom(page: nat, count: nat): (pages: seq<nat>)
    ensures |pages| == count
  {
    seq(count, i requires 0 <= i < count => page + i)
  }

  /** How many pages hold `n` bytes. */
  function PageCount(n: nat): nat {
    (n + PAGE_SIZE - 1) / PAGE_SIZE
  }

  lemma PageCountGrows(n: nat)
    requires n > 0
    ensures PageCount(n) == 1 + PageCount(n - PageLen(n))
  {
  }

  lemma PagesFromFirst(page: nat, count: nat)
    ensures [page] + PagesFrom(page + 1, count) == PagesFrom(page, count + 1)
  {
  }

  lemma PlanSelects(page: nat, n: nat)
    requires n > 0
    ensures Selected(Plan(page, n)) == [page] + Selected(Plan(page + 1, n - PageLen(n)))
  {
    PageSelects(page, PageLen(n), Plan(page + 1, n - PageLen(n)));
  }

  /** The pages selected are the first ceiling of n / 4096, one after the other. */
  lemma {:induction false} PlanSelectsPages(page: nat, n: nat)
    ensures Selected(Plan(page, n)) == PagesFrom(page, PageCount(n))
    decreases n
  {
    if n != 0 {
      PlanSelects(page, n);
      PlanSelectsPages(page + 1, n - PageLen(n));
      PagesNext(page, n);
    }
  }

  lemma PagesNext(page: nat, n: nat)
    requires n > 0
    ensures [page] + PagesFrom(page + 1, PageCount(n - PageLen(n))) == PagesFrom(page, PageCount(n))
  {
    PageCountGrows(n);
    PagesFromFirst(page, PageCount(n - PageLen(n)));
  }
}
