/**
 Whole runs of the fork forest: a byte of a VM is the last one written to it
 by the VM or, before it was forked, by the VM it was forked from.
 */
module ForestRuns {
  import opened Basics
  import opened PageBranches
  import G = Generations

  datatype Space = Memory | Files

  datatype Vm = Vm(memory: PageBranch, files: PageBranch)

  datatype Forest = Forest(nextVm: nat, nextPage: nat, vms: map<VmId, Vm>)

  datatype Step =
    | DoCreate(vm: VmId)
    | DoFork(source: VmId, child: VmId)
    | DoRemove(vm: VmId)
    | DoWrite(vm: VmId, space: Space, path: string, offset: nat, bytes: seq<Byte>)

  function Branch(vm: Vm, space: Space): PageBranch {
    if space.Memory? then vm.memory else vm.files
  }

  ghost predicate VmSized(vm: Vm) {
    Sized(vm.memory) && Sized(vm.files)
  }

  ghost predicate Valid(f: Forest) {
    f.nextPage <= U64_MAX && forall vm :: vm in f.vms ==> vm < f.nextVm && VmSized(f.vms[vm])
  }

  // ---------------------------------------------------------------------
  // The operations
  // ---------------------------------------------------------------------

  function Create(f: Forest): Forest {
    f.(nextVm := f.nextVm + 1, vms := f.vms[f.nextVm := Vm(G.EmptyBranch(), G.EmptyBranch())])
  }

  /** Both sides continue from the sealed memory and files. */
  function Fork(f: Forest, source: VmId): Forest
    requires source in f.vms
  {
    var sealed := Vm(G.Seal(f.vms[source].memory), G.Seal(f.vms[source].files));
    f.(nextVm := f.nextVm + 1, vms := f.vms[source := sealed][f.nextVm := sealed])
  }

  function Remove(f: Forest, vm: VmId): Forest {
    f.(vms := f.vms - {vm})
  }

  function Store(f: Forest, vm: VmId, space: Space, w: Written): Forest
    requires vm in f.vms
  {
    var updated := if space.Memory? then f.vms[vm].(memory := w.branch) else f.vms[vm].(files := w.branch);
    f.(nextPage := w.nextPage, vms := f.vms[vm := updated])
  }

  ghost predicate Legal(f: Forest, step: Step) {
    match step
    case DoCreate(vm) => vm == f.nextVm
    case DoFork(source, child) => source in f.vms && child == f.nextVm
    case DoRemove(vm) => vm in f.vms
    case DoWrite(vm, space, path, offset, bytes) =>
      vm in f.vms && Sized(Branch(f.vms[vm], space)) && offset + |bytes| <= U64_MAX
  }

  ghost function Next(f: Forest, step: Step): Forest
    requires Legal(f, step)
  {
    match step
    case DoCreate(vm) => Create(f)
    case DoFork(source, child) => Fork(f, source)
    case DoRemove(vm) => Remove(f, vm)
    case DoWrite(vm, space, path, offset, bytes) =>
      Store(f, vm, space, Write(Branch(f.vms[vm], space), f.nextPage, path, offset, bytes))
  }

  const EMPTY: Forest := Forest(1, 1, map[])

  ghost predicate LegalRun(steps: seq<Step>)
    decreases |steps|, 0
  {
    steps == [] || (LegalRun(steps[..|steps| - 1]) && Legal(Run(steps[..|steps| - 1]), steps[|steps| - 1]))
  }

  /** The forest after the steps, from an empty one. */
  ghost function Run(steps: seq<Step>): Forest
    requires LegalRun(steps)
    decreases |steps|, 1
  {
    if steps == [] then EMPTY else Next(Run(steps[..|steps| - 1]), steps[|steps| - 1])
  }

  // ---------------------------------------------------------------------
  // What the steps should mean
  // ---------------------------------------------------------------------

  /** The next page id after the steps: every page a write reaches takes one, while they last. */
  function NextId(steps: seq<Step>): (id: nat)
    ensures id <= U64_MAX
    decreases |steps|
  {
    if steps == [] then 1
    else
      var before := NextId(steps[..|steps| - 1]);
      match steps[|steps| - 1]
      case DoWrite(_, _, _, offset, bytes) => before + Min(PagesTouched(offset, |bytes|), U64_MAX - before)
      case _ => before
  }

  /** The byte a VM should see after the steps, read off the steps alone. */
  function LastWritten(steps: seq<Step>, vm: VmId, space: Space, path: string, a: nat): Byte
    decreases |steps|
  {
    if steps == [] then 0 as Byte
    else
      var before := steps[..|steps| - 1];
      match steps[|steps| - 1]
      case DoCreate(v) => if v == vm then 0 as Byte else LastWritten(before, vm, space, path, a)
      case DoFork(source, child) => LastWritten(before, if child == vm then source else vm, space, path, a)
      case DoRemove(_) => LastWritten(before, vm, space, path, a)
      case DoWrite(v, s, p, offset, bytes) =>
        var done := Reached(U64_MAX - NextId(before), offset, |bytes|);
        if v == vm && s == space && p == path && offset <= a < offset + done then bytes[a - offset]
        else LastWritten(before, vm, space, path, a)
  }

  lemma EmptyIsZero(path: string, a: nat)
    ensures Sized(G.EmptyBranch()) && ByteAt(G.EmptyBranch(), path, a) == 0
  {
    forall key ensures PageBytes(G.EmptyBranch(), key) == Zeros(PAGE_SIZE) { }
  }

  lemma SealIsSized(b: PageBranch)
    requires Sized(b)
    ensures Sized(G.Seal(b))
    ensures forall path, a: nat {:trigger ByteAt(G.Seal(b), path, a)} :: ByteAt(G.Seal(b), path, a) == ByteAt(b, path, a)
  {
    forall key ensures PageBytes(G.Seal(b), key) == PageBytes(b, key) { SealKeepsPages(b, key); }
  }

  lemma StepKeepsValid(f: Forest, step: Step)
    requires Valid(f) && Legal(f, step)
    ensures Valid(Next(f, step))
  {
    hide Sized, ByteAt, Write, PagesTouched;
    match step
    case DoCreate(vm) => EmptyIsZero("", 0);
    case DoFork(source, child) =>
      SealIsSized(f.vms[source].memory);
      SealIsSized(f.vms[source].files);
    case DoRemove(vm) =>
    case DoWrite(vm, space, path, offset, bytes) =>
      WrittenCount(Branch(f.vms[vm], space), f.nextPage, path, offset, bytes);
  }

  lemma {:induction false} RunIsValid(steps: seq<Step>)
    requires LegalRun(steps)
    ensures Valid(Run(steps)) && Run(steps).nextPage == NextId(steps)
    decreases |steps|
  {
    if steps != [] {
      var before, last := steps[..|steps| - 1], steps[|steps| - 1];
      RunIsValid(before);
      StepKeepsValid(Run(before), last);
      if last.DoWrite? {
        WrittenCount(Branch(Run(before).vms[last.vm], last.space), Run(before).nextPage, last.path, last.offset, last.bytes);
      }
    }
  }

  /** What one step does to one byte. */
  lemma StepByte(f: Forest, step: Step, vm: VmId, space: Space, path: string, a: nat)
    requires Valid(f) && Legal(f, step) && vm in Next(f, step).vms
    ensures Sized(Branch(Next(f, step).vms[vm], space))
    ensures var byte := ByteAt(Branch(Next(f, step).vms[vm], space), path, a);
      match step
      case DoCreate(v) => if v == vm then byte == 0 else vm in f.vms && byte == ByteAt(Branch(f.vms[vm], space), path, a)
      case DoFork(source, child) =>
        var origin := if child == vm then source else vm;
        origin in f.vms && byte == ByteAt(Branch(f.vms[origin], space), path, a)
      case DoRemove(_) => vm in f.vms && byte == ByteAt(Branch(f.vms[vm], space), path, a)
      case DoWrite(v, s, p, offset, bytes) =>
        && vm in f.vms
        && var done := Reached(U64_MAX - f.nextPage, offset, |bytes|);
           byte == if v == vm && s == space && p == path && offset <= a < offset + done then bytes[a - offset]
                   else ByteAt(Branch(f.vms[vm], space), path, a)
  {
    hide Sized, ByteAt, Write, PagesTouched, Reached;
    StepKeepsValid(f, step);
    match step
    case DoCreate(v) => EmptyIsZero(path, a);
    case DoFork(source, child) =>
      SealIsSized(f.vms[source].memory);
      SealIsSized(f.vms[source].files);
    case DoRemove(_) =>
    case DoWrite(v, s, p, offset, bytes) =>
      WrittenCount(Branch(f.vms[v], s), f.nextPage, p, offset, bytes);
      WrittenBytes(Branch(f.vms[v], s), f.nextPage, p, offset, bytes, path, a);
  }

  /** After any run, every live VM sees at every address the byte last written there. */
  lemma {:induction false} RunRefines(steps: seq<Step>, vm: VmId, space: Space, path: string, a: nat)
    requires LegalRun(steps) && vm in Run(steps).vms
    ensures Sized(Branch(Run(steps).vms[vm], space))
    ensures ByteAt(Branch(Run(steps).vms[vm], space), path, a) == LastWritten(steps, vm, space, path, a)
    decreases |steps|
  {
    hide Sized, ByteAt, Next, Legal, Valid, Branch, Reached;
    if steps != [] {
      var before, last := steps[..|steps| - 1], steps[|steps| - 1];
      RunIsValid(before);
      StepByte(Run(before), last, vm, space, path, a);
      var origin := if last.DoFork? && last.child == vm then last.source else vm;
      if origin in Run(before).vms {
        RunRefines(before, origin, space, path, a);
      }
    }
  }
}
