/** The production firmware download (crates/wfb-radio-runtime/src/lib.rs): the bytes that end up where. */
module FirmwareDevice {
  import opened RadioTypes
  import opened FirmwarePlan
  import opened Wrappers

  const PAGES := 8   // the page selector has three bits

  type Memory = map<Place, bv8>

  /** A register block write: consecutive addresses of the selected page. */
  function Stored(m: Memory, page: nat, address: nat, data: Bytes): Memory {
    if data == [] then m
    else Stored(m, page, address, data[..|data| - 1])[Place(page, address + |data| - 1) := data[|data| - 1]]
  }

  /** The place the device writes to: its selector drops the higher bits of the page. */
  function Masked(p: Place): Place {
    Place(p.page % PAGES, p.address)
  }

  /** Where the k-th byte of a payload goes in fact. */
  function DeviceSlot(k: nat): Place {
    Masked(PlaceOf(k))
  }

  /** The memory once bytes have been written one after the other, the k-th to `slot(k)`. */
  function Written(slot: nat -> Place, m: Memory, payload: Bytes): Memory {
    if payload == [] then m
    else Written(slot, m, payload[..|payload| - 1])[slot(|payload| - 1) := payload[|payload| - 1]]
  }

  function Downloaded(m: Memory, payload: Bytes): Memory {
    Written(DeviceSlot, m, payload)
  }

  lemma {:induction false} StoredTwice(m: Memory, page: nat, address: nat, data: Bytes, more: Bytes)
    ensures Stored(Stored(m, page, address, data), page, address + |data|, more) == Stored(m, page, address, data + more)
  {
    if more == [] {
      assert data + more == data;
    } else {
      var last := |more| - 1;
      StoredTwice(m, page, address, data, more[..last]);
      assert (data + more)[..|data + more| - 1] == data + more[..last];
    }
  }

  lemma SlotInPage(page: nat, k: nat)
    requires k < PAGE_SIZE
    ensures DeviceSlot(page * PAGE_SIZE + k) == Place(page % PAGES, FW_START + k)
  {
  }

  /** A page written at once is its bytes written one after the other. */
  lemma {:induction false} PageDownloaded(m: Memory, before: Bytes, page: nat, chunk: Bytes)
    requires |before| == page * PAGE_SIZE && |chunk| <= PAGE_SIZE
    ensures Downloaded(m, before + chunk) == Stored(Downloaded(m, before), page % PAGES, FW_START, chunk)
  {
    if chunk == [] {
      assert before + chunk == before;
    } else {
      var last := |chunk| - 1;
      PageDownloaded(m, before, page, chunk[..last]);
      SlotInPage(page, last);
      assert (before + chunk)[..|before + chunk| - 1] == before + chunk[..last];
    }
  }

  datatype WriteError = OffsetTooLarge(offset: nat) | AddressOverflow(offset: nat)

  /** A 16-bit register address, checked. */
  function PageAddress(offset: nat): Result<nat, WriteError> {
    if offset > 0xffff then Err(OffsetTooLarge(offset))
    else if FW_START + offset > 0xffff then Err(AddressOverflow(offset))
    else Ok(FW_START + offset)
  }

  class Device {
    var page: nat              // the low three bits of the page selector
    var memory: Memory
    var log: seq<Transfer>     // the selections and block writes made so far

    constructor ()
      ensures page == 0 && memory == map[] && log == []
    {
      page, memory, log := 0, map[], [];
    }

    /** Only the three low bits of the selector are replaced. */
    method Select(n: nat)
      modifies this
      ensures page == n % PAGES && memory == old(memory) && log == old(log) + [SelectPage(n)]
    {
      log := log + [SelectPage(n)];
      page := n % PAGES;
    }

    method WriteData(offset: nat, data: Bytes) returns (r: Result<(), WriteError>)
      requires PageAddress(offset).Ok?
      modifies this
      ensures r.Ok? && page == old(page) && memory == Stored(old(memory), old(page), FW_START + offset, data)
      ensures log == old(log) + [WriteBlock(FW_START + offset, |data|)]
    {
      log := log + [WriteBlock(FW_START + offset, |data|)];
      memory := Stored(memory, page, PageAddress(offset).value, data);
      r := Ok(());
    }

    /** The first `upTo` bytes of a page have been written in the blocks of the plan, since the memory was
        `m` and the log `l`. */
    ghost predicate Progress(m: Memory, l: seq<Transfer>, bytes: Bytes, upTo: nat)
      requires upTo <= |bytes|
      reads this
    {
      && memory == Stored(m, page, FW_START, bytes[..upTo])
      && log + PageBlocks(upTo, |bytes|) == l + PageBlocks(0, |bytes|)
    }

    method WriteNextBlock(bytes: Bytes, offset: nat, size: nat, ghost m: Memory, ghost l: seq<Transfer>)
      requires 0 < size && offset + size <= |bytes| <= PAGE_SIZE && Longest(|bytes| - offset, size)
      requires Progress(m, l, bytes, offset)
      modifies this
      ensures page == old(page) && Progress(m, l, bytes, offset + size)
    {
      BlockLogged(log, offset, |bytes|, size);
      StoredSlices(m, page, bytes, offset, offset + size);
      var r := WriteData(offset, bytes[offset..offset + size]);
    }

    /** The blocks of `size` bytes from `start` to `limit`. */
    method WriteBlocks(bytes: Bytes, start: nat, limit: nat, size: nat, ghost m: Memory, ghost l: seq<Transfer>)
      requires start <= limit <= |bytes| <= PAGE_SIZE && Longest(|bytes| - start, size) && Whole(limit - start, size)
      requires Progress(m, l, bytes, start)
      modifies this
      ensures page == old(page) && Progress(m, l, bytes, limit)
    {
      var end := start;
      while end < limit
        invariant start <= end <= limit && Whole(limit - end, size) && page == old(page) && Progress(m, l, bytes, end)
      {
        WriteNextBlock(bytes, end, size, m, l);
        end := end + size;
      }
    }

    method WritePage(bytes: Bytes) returns (written: nat)
      requires |bytes| <= PAGE_SIZE
      modifies this
      ensures written == |bytes| && page == old(page)
      ensures memory == Stored(old(memory), old(page), FW_START, bytes)
      ensures log == old(log) + PageBlocks(0, |bytes|)
    {
      ghost var m, l := memory, log;
      var full := |bytes| / BLOCK_SIZE * BLOCK_SIZE;
      var eights := full + (|bytes| - full) / REMAINDER_SIZE * REMAINDER_SIZE;
      WholeBlocks(|bytes| / BLOCK_SIZE, BLOCK_SIZE);
      WholeBlocks((|bytes| - full) / REMAINDER_SIZE, REMAINDER_SIZE);
      WholeBlocks(|bytes| - eights, 1);
      WriteBlocks(bytes, 0, full, BLOCK_SIZE, m, l);
      WriteBlocks(bytes, full, eights, REMAINDER_SIZE, m, l);
      WriteBlocks(bytes, eights, |bytes|, 1, m, l);
      written := |bytes|;
      assert bytes[..written] == bytes;
      assert log + [] == log;
    }

    /** `after` tells what the log will be once the pages left are written, and `filled` the memory once
        the payload is written up to some byte; both as one page more changes them. */
    method WriteNextPage(
      payload: Bytes, n: nat, offset: nat,
      ghost filled: nat -> Memory, ghost after: (seq<Transfer>, nat, nat) -> seq<Transfer>)
      returns (end: nat)
      requires offset < |payload| && memory == filled(offset)
      requires var len := PageLen(|payload| - offset);
        && filled(offset + len) == Stored(filled(offset), n % PAGES, FW_START, payload[offset..offset + len])
        && after(log, n, |payload| - offset) == after(PageLog(log, n, len), n + 1, |payload| - (offset + len))
      modifies this
      ensures end == offset + PageLen(|payload| - offset) && memory == filled(end)
      ensures after(log, n + 1, |payload| - end) == after(old(log), n, |payload| - offset)
    {
      end := offset + PageLen(|payload| - offset);
      SelectAndWrite(n, payload[offset..end]);
    }

    method SelectAndWrite(n: nat, chunk: Bytes)
      requires |chunk| <= PAGE_SIZE
      modifies this
      ensures memory == Stored(old(memory), n % PAGES, FW_START, chunk)
      ensures log == PageLog(old(log), n, |chunk|)
    {
      Select(n);
      var written := WritePage(chunk);
    }

    method WriteImage(payload: Bytes) returns (written: nat)
      modifies this
      ensures written == |payload| && memory == Downloaded(old(memory), payload)
      ensures log == old(log) + Writes(Plan(0, |payload|))
    {
      written := 0;
      var n := 0;
      ghost var filled := Filled(memory, payload);
      while written < |payload|
        invariant 0 <= n && written <= |payload| && (written < |payload| ==> written == n * PAGE_SIZE)
        invariant memory == filled(written)
        invariant LogAfter(log, n, |payload| - written) == LogAfter(old(log), 0, |payload|)
      {
        LogNext(log, n, |payload| - written);
        NextPage(old(memory), payload, n, written);
        NextOffset(|payload|, n, written);
        written := WriteNextPage(payload, n, written, filled, LogAfter);
        n := n + 1;
      }
      DownloadEnds(old(memory), old(log), payload);
    }
  }

  /** The memory once the first bytes of a payload have been written, as many as there are. */
  function Filled(m: Memory, payload: Bytes): nat -> Memory {
    (k: nat) => Downloaded(m, if k <= |payload| then payload[..k] else payload)
  }

  lemma NextOffset(size: nat, n: nat, offset: nat)
    requires offset < size && offset == n * PAGE_SIZE
    ensures var end := offset + PageLen(size - offset);
            end <= size && (end < size ==> end == (n + 1) * PAGE_SIZE)
  {
  }

  lemma NextPage(m: Memory, payload: Bytes, n: nat, offset: nat)
    requires offset < |payload| && offset == n * PAGE_SIZE
    ensures var len := PageLen(|payload| - offset);
            Filled(m, payload)(offset + len)
            == Stored(Filled(m, payload)(offset), n % PAGES, FW_START, payload[offset..offset + len])
  {
    ImageSlices(m, payload, n, offset, offset + PageLen(|payload| - offset));
  }

  function PageLog(log: seq<Transfer>, n: nat, pageLen: nat): seq<Transfer> {
    log + [SelectPage(n)] + PageBlocks(0, pageLen)
  }

  /** The log once the pages from the n-th on have been written, `rest` bytes in all. */
  function LogAfter(log: seq<Transfer>, n: nat, rest: nat): seq<Transfer>
    decreases rest
  {
    if rest == 0 then log else LogAfter(PageLog(log, n, PageLen(rest)), n + 1, rest - PageLen(rest))
  }

  lemma LogNext(log: seq<Transfer>, n: nat, rest: nat)
    requires rest > 0
    ensures LogAfter(log, n, rest) == LogAfter(PageLog(log, n, PageLen(rest)), n + 1, rest - PageLen(rest))
  {
  }

  lemma RegroupPage(a: seq<Transfer>, b: seq<Transfer>, c: seq<Transfer>, d: seq<Transfer>)
    ensures (a + b + c) + d == a + (b + (c + d))
  {
  }

  /** The writes of the download, in order, page by page. */
  function PlannedWrites(n: nat, rest: nat): seq<Transfer>
    decreases rest
  {
    if rest == 0 then []
    else [SelectPage(n)] + (PageBlocks(0, PageLen(rest)) + PlannedWrites(n + 1, rest - PageLen(rest)))
  }

  /** `w` is made up page by page as the download is. */
  ghost predicate PageByPage(w: (nat, nat) -> seq<Transfer>, n: nat, rest: nat) {
    if rest == 0 then w(n, rest) == []
    else w(n, rest) == [SelectPage(n)] + (PageBlocks(0, PageLen(rest)) + w(n + 1, rest - PageLen(rest)))
  }

  lemma {:induction false} PageByPageIsPlanned(w: (nat, nat) -> seq<Transfer>, n: nat, rest: nat)
    requires forall i: nat, r: nat :: PageByPage(w, i, r)
    ensures PlannedWrites(n, rest) == w(n, rest)
    decreases rest
  {
    assert PageByPage(w, n, rest);
    if rest > 0 {
      PageByPageIsPlanned(w, n + 1, rest - PageLen(rest));
    }
  }

  function PlanWithoutReads(n: nat, rest: nat): seq<Transfer> {
    Writes(Plan(n, rest))
  }

  /** They are the plan without its reads. */
  lemma PlannedWritesArePlan(n: nat, rest: nat)
    ensures PlannedWrites(n, rest) == Writes(Plan(n, rest))
  {
    forall i: nat, r: nat
      ensures PageByPage(PlanWithoutReads, i, r)
    {
      if r > 0 {
        PagePlanWrites(i, PageLen(r), Plan(i + 1, r - PageLen(r)));
      }
    }
    PageByPageIsPlanned(PlanWithoutReads, n, rest);
  }

  lemma LogStep(log: seq<Transfer>, n: nat, rest: nat)
    requires rest > 0
    ensures PageLog(log, n, PageLen(rest)) + PlannedWrites(n + 1, rest - PageLen(rest)) == log + PlannedWrites(n, rest)
  {
    RegroupPage(log, [SelectPage(n)], PageBlocks(0, PageLen(rest)), PlannedWrites(n + 1, rest - PageLen(rest)));
  }

  lemma {:induction false} LogIsPlanned(log: seq<Transfer>, n: nat, rest: nat)
    ensures LogAfter(log, n, rest) == log + PlannedWrites(n, rest)
    decreases rest
  {
    if rest > 0 {
      LogIsPlanned(PageLog(log, n, PageLen(rest)), n + 1, rest - PageLen(rest));
      LogStep(log, n, rest);
    }
  }

  /** In the end everything is filled and the log has grown by the plan without its reads. */
  lemma DownloadEnds(m: Memory, log: seq<Transfer>, payload: Bytes)
    ensures Filled(m, payload)(|payload|) == Downloaded(m, payload)
    ensures LogAfter(log, 0, |payload|) == log + Writes(Plan(0, |payload|))
  {
    assert payload[..|payload|] == payload;
    LogIsPlanned(log, 0, |payload|);
    PlannedWritesArePlan(0, |payload|);
  }

  /** Blocks of this size are the longest that fit, as long as one fits. */
  predicate Longest(remaining: nat, size: nat) {
    || size == BLOCK_SIZE
    || (size == REMAINDER_SIZE && remaining < BLOCK_SIZE)
    || (size == 1 && remaining < REMAINDER_SIZE)
  }

  /** A plan without its reads. */
  function Writes(transfers: seq<Transfer>): seq<Transfer> {
    if transfers == [] then []
    else (if transfers[0].ReadSelector? then [] else [transfers[0]]) + Writes(transfers[1..])
  }

  lemma {:induction false} BlocksAreWrites(offset: nat, pageLen: nat, more: seq<Transfer>)
    requires offset <= pageLen
    ensures Writes(PageBlocks(offset, pageLen) + more) == PageBlocks(offset, pageLen) + Writes(more)
    decreases pageLen - offset
  {
    var t := PageBlocks(offset, pageLen);
    if offset == pageLen {
      assert t + more == more;
    } else {
      var len := NextLen(pageLen - offset);
      assert (t + more)[1..] == PageBlocks(offset + len, pageLen) + more;
      BlocksAreWrites(offset + len, pageLen, more);
    }
  }

  lemma PagePlanWrites(page: nat, pageLen: nat, more: seq<Transfer>)
    ensures Writes(PagePlan(page, pageLen) + more) == [SelectPage(page)] + (PageBlocks(0, pageLen) + Writes(more))
  {
    var t := PagePlan(page, pageLen) + more;
    assert t[1..][1..] == PageBlocks(0, pageLen) + more;
    assert t[0] == ReadSelector && t[1..][0] == SelectPage(page);
    BlocksAreWrites(0, pageLen, more);
  }

  lemma BlockLogged(log: seq<Transfer>, offset: nat, pageLen: nat, size: nat)
    requires offset + size <= pageLen && size > 0 && Longest(pageLen - offset, size)
    ensures (log + [WriteBlock(FW_START + offset, size)]) + PageBlocks(offset + size, pageLen)
         == log + PageBlocks(offset, pageLen)
  {
    Regroup(log, [WriteBlock(FW_START + offset, size)], PageBlocks(offset + size, pageLen));
  }

  /** `n` bytes are a whole number of blocks. */
  predicate Whole(n: nat, size: nat) {
    n == 0 || (0 < size <= n && Whole(n - size, size))
  }

  lemma {:induction false} WholeBlocks(count: nat, size: nat)
    requires size > 0
    ensures Whole(count * size, size)
  {
    if count > 0 {
      WholeBlocks(count - 1, size);
      assert count * size == (count - 1) * size + size;
    }
  }

  lemma StoredSlices(m: Memory, page: nat, bytes: Bytes, j: nat, k: nat)
    requires j <= k <= |bytes|
    ensures Stored(Stored(m, page, FW_START, bytes[..j]), page, FW_START + j, bytes[j..k])
         == Stored(m, page, FW_START, bytes[..k])
  {
    StoredTwice(m, page, FW_START, bytes[..j], bytes[j..k]);
    assert bytes[..j] + bytes[j..k] == bytes[..k];
  }

  lemma ImageSlices(m: Memory, payload: Bytes, page: nat, offset: nat, end: nat)
    requires offset == page * PAGE_SIZE && offset <= end <= |payload| && end - offset <= PAGE_SIZE
    ensures Stored(Downloaded(m, payload[..offset]), page % PAGES, FW_START, payload[offset..end])
         == Downloaded(m, payload[..end])
  {
    PageDownloaded(m, payload[..offset], page, payload[offset..end]);
    assert payload[..offset] + payload[offset..end] == payload[..end];
  }

  // ---------------------------------------------------------------- what the device holds

  /** Two bytes share a slot exactly if they are a multiple of 32768 apart. */
  lemma SlotsRepeat(i: nat, j: nat)
    ensures DeviceSlot(i) == DeviceSlot(j) <==> i % 32768 == j % 32768
  {
    SlotResidue(i);
    SlotResidue(j);
  }

  lemma SlotsApart(i: nat, j: nat)
    requires i < j < i + 32768
    ensures DeviceSlot(j) != DeviceSlot(i)
  {
    SlotsRepeat(i, j);
    assert i % 32768 == i - i / 32768 * 32768 && j % 32768 == j - j / 32768 * 32768;
  }

  lemma SlotAgain(i: nat)
    ensures DeviceSlot(i) == DeviceSlot(i + 32768)
  {
    assert (i + 32768) / PAGE_SIZE == i / PAGE_SIZE + PAGES && (i + 32768) % PAGE_SIZE == i % PAGE_SIZE;
  }

  lemma SlotResidue(i: nat)
    ensures i % 32768 == i / PAGE_SIZE % PAGES * PAGE_SIZE + i % PAGE_SIZE
  {
  }

  /** What is written last to a slot is what it holds. */
  lemma {:induction false} LastWriteHeld(slot: nat -> Place, m: Memory, payload: Bytes, k: nat)
    requires k < |payload| && forall j: nat | k < j < |payload| :: slot(j) != slot(k)
    ensures HasByte(Written(slot, m, payload), slot(k), payload[k])
    decreases |payload|
  {
    if k < |payload| - 1 {
      LastWriteHeld(slot, m, payload[..|payload| - 1], k);
    }
  }

  predicate HasByte(m: Memory, place: Place, b: bv8) {
    place in m && m[place] == b
  }

  /** For every payload the device ends up with its last 32768 bytes, each in its slot. */
  lemma LastBytesHeld(m: Memory, payload: Bytes, k: nat)
    requires k < |payload| <= k + 32768
    ensures HasByte(Downloaded(m, payload), DeviceSlot(k), payload[k])
  {
    forall j: nat | k < j < |payload|
      ensures DeviceSlot(j) != DeviceSlot(k)
    {
      SlotsApart(k, j);
    }
    LastWriteHeld(DeviceSlot, m, payload, k);
  }

  /** The plan says where: of a payload of at most 32768 bytes the device holds the k-th at the k-th place
      the plan writes to, whichever page was selected before. */
  lemma PlanTellsMemory(m: Memory, payload: Bytes, selected: nat)
    requires |payload| <= 32768
    ensures var places := Places(Plan(0, |payload|), selected);
      |places| == |payload| && forall k: nat | k < |payload| :: HasByte(Downloaded(m, payload), places[k], payload[k])
  {
    PlanWritesEveryByteOnce(|payload|, selected);
    forall k: nat | k < |payload|
      ensures DeviceSlot(k) == PlaceOf(k) && HasByte(Downloaded(m, payload), DeviceSlot(k), payload[k])
    {
      FirstPages(k);
      LastBytesHeld(m, payload, k);
    }
  }

  lemma FirstPages(k: nat)
    requires k < 32768
    ensures DeviceSlot(k) == PlaceOf(k)
  {
  }

  predicate Holds(m: Memory, payload: Bytes, k: nat)
    requires k < |payload|
  {
    HasByte(m, DeviceSlot(k), payload[k])
  }

  predicate RepeatedAt(payload: Bytes, i: nat) {
    i + 32768 < |payload| ==> payload[i] == payload[i + 32768]
  }

  ghost predicate Repeats(payload: Bytes) {
    forall i: nat :: RepeatedAt(payload, i)
  }

  ghost predicate WhollyHeld(m: Memory, payload: Bytes) {
    forall k: nat | k < |payload| :: Holds(m, payload, k)
  }

  lemma {:induction false} RepeatsDown(payload: Bytes, k: nat)
    requires k < |payload| && Repeats(payload)
    ensures Holds(Downloaded(map[], payload), payload, k)
    decreases |payload| - k
  {
    if |payload| <= k + 32768 {
      LastBytesHeld(map[], payload, k);
    } else {
      RepeatsDown(payload, k + 32768);
      SlotAgain(k);
      assert RepeatedAt(payload, k);
    }
  }

  lemma HeldOnce(m: Memory, p: Place, q: Place, b: bv8, c: bv8)
    requires p == q && HasByte(m, p, b) && HasByte(m, q, c)
    ensures b == c
  {
  }

  lemma HeldRepeats(m: Memory, payload: Bytes)
    requires WhollyHeld(m, payload)
    ensures Repeats(payload)
  {
    forall i: nat
      ensures RepeatedAt(payload, i)
    {
      if i + 32768 < |payload| {
        assert Holds(m, payload, i) && Holds(m, payload, i + 32768);
        HeldTwice(m, payload, i);
      }
    }
  }

  lemma HeldTwice(m: Memory, payload: Bytes, i: nat)
    requires i + 32768 < |payload| && Holds(m, payload, i) && Holds(m, payload, i + 32768)
    ensures RepeatedAt(payload, i)
  {
    SlotAgain(i);
    HeldOnce(m, DeviceSlot(i), DeviceSlot(i + 32768), payload[i], payload[i + 32768]);
  }

  /** The device holds every byte of a payload exactly if the payload repeats itself every 32768 bytes; so
      it does whenever there are at most that many. */
  lemma WholePayloadHeld(payload: Bytes)
    ensures WhollyHeld(Downloaded(map[], payload), payload) <==> Repeats(payload)
    ensures |payload| <= 32768 ==> WhollyHeld(Downloaded(map[], payload), payload)
  {
    if Repeats(payload) {
      forall k: nat | k < |payload|
        ensures Holds(Downloaded(map[], payload), payload, k)
      {
        RepeatsDown(payload, k);
      }
    }
    if WhollyHeld(Downloaded(map[], payload), payload) {
      HeldRepeats(Downloaded(map[], payload), payload);
    }
  }
}
