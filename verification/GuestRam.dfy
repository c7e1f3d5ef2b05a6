/**
 Guest RAM backed by immutable page generations, as a state machine.

 A VM sees every page through a private mapping of a generation file: the file
 page until the first write, a private copy from then on. Forking copies dirty
 pages out while the guest keeps running, pauses it, copies again what it
 dirtied meanwhile, and seals. Guest writes, page copies and pauses of all VMs
 interleave freely.

 A generation file is a sequence of page-sized slots; slot `k` starts at byte
 `k * PAGE_SIZE`.
 */
module GuestRam {
  import opened Basics

  type VmId = nat
  type GenId = nat
  type Page = seq<Byte>

  /** A page reference: stable identity, generation file, and slot in it. */
  datatype RamPage = RamPage(id: nat, generation: GenId, slot: nat)

  datatype Ram = Ram(
    pages: seq<RamPage>,
    overlay: map<nat, Page>,
    hostDirty: set<nat>,
    kvmDirty: set<nat>,
    sealed: bool)

  /**
   A fork in preparation. `order` lists the pages whose dirty bits were taken;
   `done` of them are copied in full, and `at` bytes of the next one.
   */
  datatype Preparation = Preparation(
    generation: GenId,
    order: seq<nat>,
    done: nat,
    at: nat,
    firstId: nat,
    sealsExisting: bool,
    paused: bool)

  datatype World = World(
    files: map<GenId, seq<Page>>,
    nextGen: nat,
    nextPage: nat,
    rams: map<VmId, Ram>,
    forks: map<VmId, Preparation>)

  // ---------------------------------------------------------------------
  // Reading memory
  // ---------------------------------------------------------------------

  function PageAt(files: map<GenId, seq<Page>>, p: RamPage): Page {
    if p.generation in files && p.slot < |files[p.generation]| then files[p.generation][p.slot] else []
  }

  function Read(w: World, vm: VmId, i: nat): Page
    requires vm in w.rams && i < |w.rams[vm].pages|
  {
    var r := w.rams[vm];
    if i in r.overlay then r.overlay[i] else PageAt(w.files, r.pages[i])
  }

  /** The slot a page of the preparation is copied to. */
  function SlotOf(p: Preparation, k: nat): nat
    requires k < |p.order|
  {
    if p.sealsExisting then p.order[k] else k
  }

  function Copied(w: World, p: Preparation, k: nat): Page
    requires k < |p.order|
  {
    PageAt(w.files, RamPage(0, p.generation, SlotOf(p, k)))
  }

  function SetSlot(files: map<GenId, seq<Page>>, g: GenId, slot: nat, page: Page): map<GenId, seq<Page>>
    requires g in files && slot < |files[g]|
  {
    files[g := files[g][slot := page]]
  }

  // ---------------------------------------------------------------------
  // Steps
  // ---------------------------------------------------------------------

  function ZeroPages(n: nat): (pages: seq<Page>)
    ensures |pages| == n && forall i :: 0 <= i < n ==> pages[i] == Zeros(PAGE_SIZE)
  {
    seq(n, i => Zeros(PAGE_SIZE))
  }

  /** Fresh RAM: one zeroed generation, mapped page by page. */
  function Create(w: World, vm: VmId, n: nat): World {
    var pages := seq(n, i requires 0 <= i => RamPage(w.nextPage + i, w.nextGen, i));
    w.(files := w.files[w.nextGen := ZeroPages(n)],
       nextGen := w.nextGen + 1,
       nextPage := w.nextPage + n,
       rams := w.rams[vm := Ram(pages, map[], {}, {}, false)])
  }

  /** Page `i` after `bytes` are written at byte `offset` of the address space. */
  function Written(page: Page, i: nat, offset: nat, bytes: seq<Byte>): (r: Page)
    ensures |r| == |page|
  {
    seq(|page|, j requires 0 <= j < |page| =>
      var a := i * PAGE_SIZE + j;
      if offset <= a < offset + |bytes| then bytes[a - offset] else page[j])
  }

  /** A write of `len` bytes at `offset` reaches page `i`. */
  predicate Touches(i: nat, offset: nat, len: nat) {
    0 < len && i * PAGE_SIZE < offset + len && offset < (i + 1) * PAGE_SIZE
  }

  function TouchedPages(offset: nat, len: nat, n: nat): set<nat> {
    set i | 0 <= i < n && Touches(i, offset, len)
  }

  /** Private copies of the touched pages, with the bytes written. */
  function WriteOverlay(w: World, vm: VmId, offset: nat, bytes: seq<Byte>): map<nat, Page>
    requires vm in w.rams && offset + |bytes| <= |w.rams[vm].pages| * PAGE_SIZE
  {
    w.rams[vm].overlay
      + map i | 0 <= i < |w.rams[vm].pages| && Touches(i, offset, |bytes|) :: Written(Read(w, vm, i), i, offset, bytes)
  }

  /** The guest writes; the hypervisor's dirty log records the pages. */
  function GuestWrite(w: World, vm: VmId, offset: nat, bytes: seq<Byte>): World
    requires vm in w.rams && offset + |bytes| <= |w.rams[vm].pages| * PAGE_SIZE
  {
    var r := w.rams[vm];
    w.(rams := w.rams[vm := r.(overlay := WriteOverlay(w, vm, offset, bytes),
                               kvmDirty := r.kvmDirty + TouchedPages(offset, |bytes|, |r.pages|))])
  }

  /** The host writes; the RAM's own dirty set records the pages. */
  function HostWrite(w: World, vm: VmId, offset: nat, bytes: seq<Byte>): World
    requires vm in w.rams && offset + |bytes| <= |w.rams[vm].pages| * PAGE_SIZE
  {
    var r := w.rams[vm];
    w.(rams := w.rams[vm := r.(overlay := WriteOverlay(w, vm, offset, bytes),
                               hostDirty := r.hostDirty + TouchedPages(offset, |bytes|, |r.pages|))])
  }

  /**
   Start a fork by taking pages out of the dirty log and copying them in
   `order`. A fork of a running guest takes the whole log; one that starts
   under pause takes nothing and leaves the log to the last copy.
   */
  function StartFork(w: World, vm: VmId, order: seq<nat>): World
    requires vm in w.rams && 0 < |w.rams[vm].pages|
  {
    var r := w.rams[vm];
    var taken := w.rams[vm := r.(kvmDirty := r.kvmDirty - (set i | i in order))];
    if !r.sealed then
      var p := Preparation(r.pages[0].generation, order, 0, 0, 0, true, false);
      w.(rams := taken, forks := w.forks[vm := p])
    else
      var p := Preparation(w.nextGen, order, 0, 0, w.nextPage, false, false);
      w.(files := w.files[w.nextGen := ZeroPages(|order|)],
         nextGen := w.nextGen + 1,
         nextPage := w.nextPage + |order|,
         rams := taken,
         forks := w.forks[vm := p])
  }

  /** Copy the next `n` bytes of the page being copied, as the guest has it now. */
  function CopyChunk(w: World, vm: VmId, n: nat): World
    requires vm in w.forks && w.forks[vm].done < |w.forks[vm].order|
  {
    var p := w.forks[vm];
    var slot := SlotOf(p, p.done);
    if vm in w.rams && p.order[p.done] < |w.rams[vm].pages| && p.generation in w.files && slot < |w.files[p.generation]|
       && p.at + n <= |Read(w, vm, p.order[p.done])| && p.at + n <= |w.files[p.generation][slot]|
    then
      var source := Read(w, vm, p.order[p.done]);
      var page := Splice(w.files[p.generation][slot], p.at, source[p.at..p.at + n]);
      var p' := if p.at + n < PAGE_SIZE then p.(at := p.at + n) else p.(at := 0, done := p.done + 1);
      w.(files := SetSlot(w.files, p.generation, slot, page), forks := w.forks[vm := p'])
    else w
  }

  function Pause(w: World, vm: VmId): World
    requires vm in w.forks
  {
    w.(forks := w.forks[vm := w.forks[vm].(paused := true)])
  }

  /** The page references of the source and of the child once the fork is finished. */
  function FinishedPages(w: World, vm: VmId, extra: seq<nat>): seq<RamPage>
    requires vm in w.rams && vm in w.forks
  {
    var r, p := w.rams[vm], w.forks[vm];
    if p.sealsExisting then r.pages
    else
      seq(|r.pages|, i requires 0 <= i < |r.pages| =>
        if i in p.order then RamPage(p.firstId + Position(p.order, i), p.generation, Position(p.order, i))
        else if i in extra then RamPage(w.nextPage + Position(extra, i), p.generation, |p.order| + Position(extra, i))
        else r.pages[i])
  }

  /** The index at which a list holds a value, or its length. */
  function Position(q: seq<nat>, x: nat): (k: nat)
    ensures k <= |q|
    ensures x in q ==> k < |q| && q[k] == x
    ensures x !in q ==> k == |q|
  {
    if q == [] then 0 else if q[0] == x then 0 else 1 + Position(q[1..], x)
  }

  /** The generation file the fork seals, once the last dirty pages are copied over it. */
  function FinishedFile(w: World, vm: VmId, dirty: set<nat>, extra: seq<nat>): seq<Page>
    requires vm in w.rams && vm in w.forks && w.forks[vm].generation in w.files
  {
    var r, p := w.rams[vm], w.forks[vm];
    var file := w.files[p.generation];
    if p.sealsExisting then
      seq(|file|, k requires 0 <= k < |file| => if k in dirty && k < |r.pages| then Read(w, vm, k) else file[k])
    else
      seq(|p.order| + |extra|, k requires 0 <= k < |p.order| + |extra| =>
        if k < |p.order| then
          if p.order[k] in dirty && p.order[k] < |r.pages| then Read(w, vm, p.order[k])
          else if k < |file| then file[k] else []
        else if extra[k - |p.order|] < |r.pages| then Read(w, vm, extra[k - |p.order|]) else [])
  }

  /**
   With the guest paused: take the dirty log again, copy every page it or the
   host's set names, seal, and give the child the same page references.
   `extra` lists the dirty pages the preparation had not copied.
   */
  function FinishFork(w: World, vm: VmId, child: VmId, extra: seq<nat>): World
    requires vm in w.rams && vm in w.forks && w.forks[vm].generation in w.files
  {
    var r, p := w.rams[vm], w.forks[vm];
    var dirty := r.hostDirty + r.kvmDirty;
    var pages := FinishedPages(w, vm, extra);
    var overlay: map<nat, Page> :=
      if p.sealsExisting then map[] else map i | i in r.overlay && i !in p.order && i !in extra :: r.overlay[i];
    w.(files := w.files[p.generation := FinishedFile(w, vm, dirty, extra)],
       nextPage := if p.sealsExisting then w.nextPage else w.nextPage + |extra|,
       rams := w.rams[vm := Ram(pages, overlay, {}, {}, true)][child := Ram(pages, map[], {}, {}, true)],
       forks := w.forks - {vm})
  }

  function Remove(w: World, vm: VmId): World {
    w.(rams := w.rams - {vm})
  }
}
