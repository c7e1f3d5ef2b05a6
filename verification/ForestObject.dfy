/** The owner of a fork forest's VMs, its operations and their errors. */
module ForestObject {
  import opened Basics
  import opened PageBranches
  import opened ForestRuns
  import FA = ForestAccounting
  import A = Accounting
  import G = Generations

  /** One address space of every VM. */
  function SpaceOf(vms: map<VmId, Vm>, space: Space): FA.Space {
    map vm | vm in vms :: Branch(vms[vm], space)
  }

  ghost function SharedIds(space: FA.Space): set<nat> {
    set vm, id | vm in space && id in FA.VisibleIds(space[vm]) && FA.IsShared(space, id) :: id
  }

  /** The ids of a space, each once. */
  ghost predicate Lists(order: seq<VmId>, vms: set<VmId>) {
    && (forall i, j :: 0 <= i < j < |order| ==> order[i] != order[j])
    && (forall vm :: vm in vms <==> vm in order)
  }

  /** Counting over a list of branches counts the pages of the space. */
  lemma ListedResident(space: FA.Space, order: seq<VmId>)
    requires Lists(order, space.Keys)
    ensures A.Resident(seq(|order|, i requires 0 <= i < |order| => FA.RetainedIds(space[order[i]]))) == FA.Resident(space)
  {
    hide FA.RetainedIds;
    var listed := seq(|order|, i requires 0 <= i < |order| => FA.RetainedIds(space[order[i]]));
    forall id ensures id in A.Resident(listed) <==> id in FA.Resident(space) {
      if id in A.Resident(listed) {
        var i :| 0 <= i < |listed| && id in listed[i];
        assert order[i] in space && id in FA.RetainedIds(space[order[i]]);
      }
      if id in FA.Resident(space) {
        var vm :| vm in space && id in FA.RetainedIds(space[vm]);
        var i :| 0 <= i < |order| && order[i] == vm;
        assert id in listed[i];
      }
    }
  }

  lemma ListedShared(space: FA.Space, order: seq<VmId>)
    requires Lists(order, space.Keys)
    ensures A.Shared(seq(|order|, i requires 0 <= i < |order| => FA.VisibleIds(space[order[i]]))) == SharedIds(space)
  {
    hide FA.VisibleIds;
    var listed := seq(|order|, i requires 0 <= i < |order| => FA.VisibleIds(space[order[i]]));
    forall id ensures id in A.Shared(listed) <==> id in SharedIds(space) {
      if id in A.Shared(listed) {
        var i, j :| 0 <= i < j < |listed| && id in listed[i] && id in listed[j];
        assert order[i] in space && order[j] in space && order[i] != order[j];
        assert FA.SharedBy(space, id, order[i], order[j]);
        assert FA.IsShared(space, id);
      }
      if id in SharedIds(space) {
        var a, b :| FA.SharedBy(space, id, a, b);
        var i :| 0 <= i < |order| && order[i] == a;
        var j :| 0 <= j < |order| && order[j] == b;
        assert id in listed[i] && id in listed[j];
        assert i < j || j < i;
        assert A.SeenTwice(listed, id) && id in A.Resident(listed);
      }
    }
  }

  /** Every shared page is held by some VM. */
  lemma SharedIsHeld(space: FA.Space)
    ensures SharedIds(space) <= FA.Resident(space) && |SharedIds(space)| <= |FA.Resident(space)|
  {
    hide FA.VisibleIds, FA.RetainedIds;
    forall id | id in SharedIds(space) ensures id in FA.Resident(space) {
      var vm :| vm in space && id in FA.VisibleIds(space[vm]);
      FA.VisibleIdsRetained(space[vm]);
    }
    A.SubsetSize(SharedIds(space), FA.Resident(space));
  }

  datatype PageAccount = PageAccount(memory: A.Account, files: A.Account)

  class ForkForest {
    var nextVm: nat
    var nextPage: nat
    var vms: map<VmId, Vm>

    constructor ()
      ensures Value() == EMPTY
    {
      nextVm, nextPage, vms := 1, 1, map[];
    }

    function Value(): Forest
      reads this
    {
      Forest(nextVm, nextPage, vms)
    }

    method CreateVm() returns (vm: VmId)
      modifies this
      ensures vm == old(nextVm) && Value() == Create(old(Value()))
    {
      vm := nextVm;
      nextVm := nextVm + 1;
      vms := vms[vm := Vm(G.EmptyBranch(), G.EmptyBranch())];
    }

    /** Both sides of a fork start from the source's sealed pages. */
    method ForkVm(source: VmId) returns (r: Result<VmId, ForkError>)
      modifies this
      ensures source !in old(vms) ==> r == Err(VmNotFound(source)) && Value() == old(Value())
      ensures source in old(vms) ==> r == Ok(old(nextVm)) && Value() == Fork(old(Value()), source)
    {
      if source !in vms {
        return Err(VmNotFound(source));
      }
      var memory, files := vms[source].memory, vms[source].files;
      if memory.changes != map[] {
        memory := G.Branch(G.Generation(Some(memory.base), memory.changes), map[]);
      }
      if files.changes != map[] {
        files := G.Branch(G.Generation(Some(files.base), files.changes), map[]);
      }
      var child := nextVm;
      nextVm := nextVm + 1;
      vms := vms[source := Vm(memory, files)][child := Vm(memory, files)];
      return Ok(child);
    }

    method RemoveVm(vm: VmId) returns (r: Result<(), ForkError>)
      modifies `vms
      ensures r == (if vm in old(vms) then Ok(()) else Err(VmNotFound(vm)))
      ensures Value() == Remove(old(Value()), vm)
    {
      if vm !in vms {
        assert vms - {vm} == vms;
        return Err(VmNotFound(vm));
      }
      vms := vms - {vm};
      return Ok(());
    }

    /** A write stores what fits under the id counter and reports what stopped it. */
    method WriteSpace(vm: VmId, space: Space, path: string, offset: nat, bytes: seq<Byte>) returns (r: Result<(), ForkError>)
      requires Valid(Value())
      modifies `vms, `nextPage
      ensures Valid(Value())
      ensures vm !in old(vms) ==> r == Err(VmNotFound(vm)) && Value() == old(Value())
      ensures vm in old(vms) && offset + |bytes| > U64_MAX ==> r == Err(RangeOverflow) && Value() == old(Value())
      ensures vm in old(vms) && offset + |bytes| <= U64_MAX ==>
        && Value() == Store(old(Value()), vm, space, Write(Branch(old(vms)[vm], space), old(nextPage), path, offset, bytes))
        && r == if old(nextPage) + PagesTouched(offset, |bytes|) <= U64_MAX then Ok(()) else Err(PageIdOverflow)
    {
      hide Write, PagesTouched, Sized;
      if vm !in vms {
        return Err(VmNotFound(vm));
      }
      var branch, next, result := WritePages(Branch(vms[vm], space), nextPage, path, offset, bytes);
      var state := vms[vm];
      var updated := if space.Memory? then state.(memory := branch) else state.(files := branch);
      assert vms[vm := state] == vms;
      vms, nextPage := vms[vm := updated], next;
      return result;
    }

    /** A read returns the bytes of the VM, zeros where nothing was written. */
    method ReadSpace(vm: VmId, space: Space, path: string, offset: nat, len: nat) returns (r: Result<seq<Byte>, ForkError>)
      requires Valid(Value())
      ensures vm !in vms ==> r == Err(VmNotFound(vm))
      ensures vm in vms && offset + len > U64_MAX ==> r == Err(RangeOverflow)
      ensures vm in vms && offset + len <= U64_MAX ==>
        && r.Ok? && |r.value| == len && Sized(Branch(vms[vm], space))
        && forall i :: 0 <= i < len ==> r.value[i] == ByteAt(Branch(vms[vm], space), path, offset + i)
    {
      if vm !in vms {
        return Err(VmNotFound(vm));
      }
      r := ReadPages(Branch(vms[vm], space), path, offset, len);
    }

    /** The pages of one space that live VMs hold, and those at least two of them see. */
    method AccountSpace(space: Space) returns (account: A.Account)
      ensures account == A.Account(|FA.Resident(SpaceOf(vms, space))|, |SharedIds(SpaceOf(vms, space))|)
    {
      var order: seq<VmId>, branches: seq<PageBranch>, todo := [], [], vms.Keys;
      ghost var all := SpaceOf(vms, space);
      while todo != {}
        invariant todo <= vms.Keys && |branches| == |order|
        invariant Lists(order, vms.Keys - todo)
        invariant forall i :: 0 <= i < |order| ==> order[i] in all && branches[i] == all[order[i]]
        decreases todo
      {
        var vm :| vm in todo;
        order, branches := order + [vm], branches + [Branch(vms[vm], space)];
        todo := todo - {vm};
      }
      account := FA.AccountPages(branches);
      ListedResident(all, order);
      ListedShared(all, order);
      assert seq(|branches|, i requires 0 <= i < |branches| => FA.RetainedIds(branches[i]))
          == seq(|order|, i requires 0 <= i < |order| => FA.RetainedIds(all[order[i]]));
      assert seq(|branches|, i requires 0 <= i < |branches| => FA.VisibleIds(branches[i]))
          == seq(|order|, i requires 0 <= i < |order| => FA.VisibleIds(all[order[i]]));
    }

    method PageAccounting() returns (account: PageAccount)
      ensures account.memory == A.Account(|FA.Resident(SpaceOf(vms, Memory))|, |SharedIds(SpaceOf(vms, Memory))|)
      ensures account.files == A.Account(|FA.Resident(SpaceOf(vms, Files))|, |SharedIds(SpaceOf(vms, Files))|)
      ensures account.memory.shared <= account.memory.resident && account.files.shared <= account.files.resident
    {
      SharedIsHeld(SpaceOf(vms, Memory));
      SharedIsHeld(SpaceOf(vms, Files));
      var memory := AccountSpace(Memory);
      var files := AccountSpace(Files);
      account := PageAccount(memory, files);
    }
  }
}
