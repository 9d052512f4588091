/**
 * The Pixie-16 crate: the online `modules` and `offline` collections, the
 * `ready` flag, the user count, module lookup, and the operations that move
 * modules between the collections.
 *
 * A module is a value whose `id` stands for the identity of the module
 * object the crate points to. What the module layer does inside `open`,
 * `close`, `boot`, `probe` and `sync_hw` is given as input (the state or the
 * error code each call leaves). Calls into the backplane and into the
 * module layer's numbering and ordering helpers are recorded in `calls`.
 */
module Crate {
  import opened Errors

  /** `hw::max_slots`. */
  const MaxSlots: nat := 13

  /** The fields of a module the crate reads; `id` is the module object's identity. */
  datatype Module = Module(
    id: nat,
    slot: int,
    number: int,
    revision: int,
    crateRevision: int,
    devicePresent: bool,
    present: bool,
    online: bool,
    pciBus: int,
    pciSlot: int)

  /** Calls the crate makes that this model records rather than performs. */
  datatype Call =
    | Close(id: nat)
    | ForceOffline(id: nat)
    | Boot(id: nat, comms: bool, fippi: bool, dsp: bool)
    | SyncHw(id: nat)
    | Probe(id: nat)
    | BackplaneInit(count: nat)
    | BackplaneReinit
    | BackplaneOffline(id: nat)
    | AssignNumbers
    | SetNumberBySlot
    | OrderBySlot
    | OrderByNumber

  /** `boot_params`: `modules` lists the module numbers to boot, empty meaning all. */
  datatype BootParams = BootParams(force: bool, bootComms: bool, bootFippi: bool, bootDsp: bool, modules: seq<nat>)

  /** The `boot_params` constructor. */
  function DefaultBootParams(): (p: BootParams)
    ensures p.force && p.bootComms && p.bootFippi && p.bootDsp && p.modules == []
  {
    BootParams(true, true, true, true, [])
  }

  /** `module_handle::checks`. */
  datatype Check = CheckOnline | CheckPresent | CheckNone

  /**
   * What `module::open` leaves for a device: the module (a `pixie::error`
   * thrown by the open is caught), or the module and an exception of another
   * kind, which escapes `initialize`.
   */
  datatype OpenResult = Opened(m: Module) | Escaped(m: Module, code: Code)

  /** What `module::probe` leaves: the module's new flags, or the error it throws. */
  datatype ProbeResult = Probed(present: bool, online: bool) | ProbeFailed(code: Code)

  // ---------------------------------------------------------------------
  // Filters and error aggregation
  // ---------------------------------------------------------------------

  /** The module properties the crate sorts modules by. */
  datatype Flag = Online | Present | Assigned

  /** Whether `m` has `flag`; `module::assign` leaves -1 as the number of a module it did not number. */
  predicate Has(m: Module, flag: Flag)
  {
    match flag
    case Online => m.online
    case Present => m.present
    case Assigned => m.number != -1
  }

  /** The modules of `ms` for which `f` is `want`, in order. */
  function Keep(ms: seq<Module>, f: Flag, want: bool): (r: seq<Module>)
    ensures |r| <= |ms|
    ensures forall i :: 0 <= i < |r| ==> Has(r[i], f) == want
  {
    if ms == [] then [] else (if Has(ms[0], f) == want then [ms[0]] else []) + Keep(ms[1..], f, want)
  }

  /** Filtering distributes over concatenation. */
  lemma {:induction false} KeepAppend(a: seq<Module>, b: seq<Module>, f: Flag, want: bool)
    ensures Keep(a + b, f, want) == Keep(a, f, want) + Keep(b, f, want)
  {
    if a == [] {
      assert a + b == b;
    } else {
      assert (a + b)[1..] == a[1..] + b;
      KeepAppend(a[1..], b, f, want);
    }
  }

  /** The two filters of one predicate together keep every module exactly once. */
  lemma {:induction false} KeepPartition(ms: seq<Module>, f: Flag)
    ensures |Keep(ms, f, true)| + |Keep(ms, f, false)| == |ms|
    ensures multiset(Keep(ms, f, true)) + multiset(Keep(ms, f, false)) == multiset(ms)
  {
    if ms != [] {
      KeepPartition(ms[1..], f);
      assert ms == [ms[0]] + ms[1..];
    }
  }

  /** A filter keeps everything iff every module passes it. */
  lemma {:induction false} KeepAll(ms: seq<Module>, f: Flag, want: bool)
    ensures Keep(ms, f, want) == ms <==> forall i :: 0 <= i < |ms| ==> Has(ms[i], f) == want
    ensures |Keep(ms, f, want)| == |ms| <==> forall i :: 0 <= i < |ms| ==> Has(ms[i], f) == want
    ensures (forall i :: 0 <= i < |ms| ==> Has(ms[i], f) == want) ==> Keep(ms, f, !want) == []
  {
    if forall i :: 0 <= i < |ms| ==> Has(ms[i], f) == want {
      KeepEvery(ms, f, want);
    } else {
      var k :| 0 <= k < |ms| && Has(ms[k], f) != want;
      KeepDrops(ms, f, want, k);
    }
  }

  /** A filter every module passes keeps all of them, and its opposite none. */
  lemma {:induction false} KeepEvery(ms: seq<Module>, f: Flag, want: bool)
    requires forall i :: 0 <= i < |ms| ==> Has(ms[i], f) == want
    ensures Keep(ms, f, want) == ms && Keep(ms, f, !want) == []
  {
    if ms != [] {
      assert forall i :: 0 <= i < |ms| - 1 ==> ms[1..][i] == ms[i + 1];
      KeepEvery(ms[1..], f, want);
      assert ms == [ms[0]] + ms[1..];
    }
  }

  /** A filter some module fails keeps fewer modules than it was given. */
  lemma {:induction false} KeepDrops(ms: seq<Module>, f: Flag, want: bool, k: nat)
    requires k < |ms| && Has(ms[k], f) != want
    ensures |Keep(ms, f, want)| < |ms|
  {
    if k > 0 {
      assert ms[1..][k - 1] == ms[k];
      KeepDrops(ms[1..], f, want, k - 1);
    }
  }

  /**
   * Removing the first module that fails `f` (every earlier one passes)
   * keeps the modules that pass and takes that module off the front of
   * those that fail.
   */
  lemma RemoveFirstFailing(ms: seq<Module>, k: nat, f: Flag)
    requires k < |ms| && !Has(ms[k], f) && forall j :: 0 <= j < k ==> Has(ms[j], f)
    ensures Keep(RemoveAt(ms, k), f, true) == Keep(ms, f, true)
    ensures Keep(ms, f, false) == [ms[k]] + Keep(RemoveAt(ms, k), f, false)
  {
    KeepEvery(ms[..k], f, true);
    KeepSkipsHead(ms[k], ms[k + 1..], f);
    RemoveFirstFailingSide(ms, k, f, true);
    RemoveFirstFailingSide(ms, k, f, false);
  }

  /** Filtering `ms` and `ms` without position `k`, split around `k`. */
  lemma RemoveFirstFailingSide(ms: seq<Module>, k: nat, f: Flag, want: bool)
    requires k < |ms|
    ensures Keep(ms, f, want) == Keep(ms[..k], f, want) + Keep([ms[k]] + ms[k + 1..], f, want)
    ensures Keep(RemoveAt(ms, k), f, want) == Keep(ms[..k], f, want) + Keep(ms[k + 1..], f, want)
  {
    assert ms == ms[..k] + ([ms[k]] + ms[k + 1..]);
    KeepAppend(ms[..k], [ms[k]] + ms[k + 1..], f, want);
    KeepAppend(ms[..k], ms[k + 1..], f, want);
  }

  lemma KeepSkipsHead(m: Module, post: seq<Module>, f: Flag)
    requires !Has(m, f)
    ensures Keep([m] + post, f, true) == Keep(post, f, true)
    ensures Keep([m] + post, f, false) == [m] + Keep(post, f, false)
  {
    assert ([m] + post)[1..] == post;
  }

  /** The first position in `ms` of a module that satisfies `p`, as `std::find_if` finds it. */
  function FirstWhere(ms: seq<Module>, p: Module -> bool): (r: Option<nat>)
    ensures r.Some? ==> r.value < |ms| && p(ms[r.value]) && forall j :: 0 <= j < r.value ==> !p(ms[j])
    ensures r.None? ==> forall j :: 0 <= j < |ms| ==> !p(ms[j])
  {
    if ms == [] then None
    else if p(ms[0]) then Some(0)
    else match FirstWhere(ms[1..], p)
      case None => None
      case Some(k) => Some(k + 1)
  }

  /** The first position of the module object `id` in `ms`. */
  function IndexOfId(ms: seq<Module>, id: nat): Option<nat>
  {
    FirstWhere(ms, (m: Module) => m.id == id)
  }

  /** The first module of `ms` that fails `f`. */
  function FirstFailing(ms: seq<Module>, f: Flag): (r: Option<nat>)
    ensures r.Some? ==> r.value < |ms| && !Has(ms[r.value], f) && forall j :: 0 <= j < r.value ==> Has(ms[j], f)
    ensures r.None? ==> forall j :: 0 <= j < |ms| ==> Has(ms[j], f)
  {
    if ms == [] then None
    else if !Has(ms[0], f) then Some(0)
    else match FirstFailing(ms[1..], f)
      case None => None
      case Some(k) => Some(k + 1)
  }

  /** `ms` without its `k`th entry, the others in order. */
  function RemoveAt(ms: seq<Module>, k: nat): (r: seq<Module>)
    requires k < |ms|
    ensures |r| == |ms| - 1
  {
    ms[..k] + ms[k + 1..]
  }

  /**
   * Moving entry `k` of the online modules to the end of the offline ones
   * keeps every module, and the order of the others.
   */
  lemma MoveKeepsModules(ms: seq<Module>, os: seq<Module>, k: nat)
    requires k < |ms|
    ensures multiset(RemoveAt(ms, k)) + multiset(os + [ms[k]]) == multiset(ms) + multiset(os)
    ensures |RemoveAt(ms, k)| == |ms| - 1
    ensures forall j :: 0 <= j < |ms| - 1 ==> RemoveAt(ms, k)[j] == if j < k then ms[j] else ms[j + 1]
  {
    RemoveAtMultiset(ms, k);
    RemoveAtIndex(ms, k);
  }

  lemma RemoveAtMultiset(ms: seq<Module>, k: nat)
    requires k < |ms|
    ensures multiset(RemoveAt(ms, k)) + multiset{ms[k]} == multiset(ms)
  {
    var pre, post := ms[..k], ms[k + 1..];
    assert RemoveAt(ms, k) == pre + post;
    assert ms == pre + ([ms[k]] + post);
  }

  lemma RemoveAtIndex(ms: seq<Module>, k: nat)
    requires k < |ms|
    ensures forall j :: 0 <= j < |ms| - 1 ==> RemoveAt(ms, k)[j] == if j < k then ms[j] else ms[j + 1]
  {
    var pre, post, r := ms[..k], ms[k + 1..], RemoveAt(ms, k);
    assert r == pre + post;
    forall j | 0 <= j < |ms| - 1
      ensures r[j] == if j < k then ms[j] else ms[j + 1]
    {
      if j < k {
        assert r[j] == pre[j];
      } else {
        assert r[j] == post[j - k];
      }
    }
  }

  /**
   * The code the aggregation of `boot` and `initialize_afe` raises: each
   * result joined in launch order replaces the held code only while that is
   * still success, so the first failure wins.
   */
  function FirstFailure(codes: seq<Code>): Code
  {
    if codes == [] then Success
    else
      var held := FirstFailure(codes[..|codes| - 1]);
      if held == Success then codes[|codes| - 1] else held
  }

  /** `FirstFailure` is success iff every code is, and otherwise the code at the first failing position. */
  lemma {:induction false} FirstFailureIsFirst(codes: seq<Code>)
    ensures FirstFailure(codes) == Success <==> forall i :: 0 <= i < |codes| ==> codes[i] == Success
    ensures FirstFailure(codes) != Success ==>
      exists i :: 0 <= i < |codes| && codes[i] == FirstFailure(codes) && forall j :: 0 <= j < i ==> codes[j] == Success
  {
    if codes != [] {
      var init := codes[..|codes| - 1];
      FirstFailureIsFirst(init);
      assert forall i :: 0 <= i < |init| ==> init[i] == codes[i];
    }
  }

  /** The code `shutdown` raises: every failure overwrites the previous one, so the last one wins. */
  function LastFailure(codes: seq<Code>): Code
  {
    if codes == [] then Success
    else if codes[|codes| - 1] != Success then codes[|codes| - 1]
    else LastFailure(codes[..|codes| - 1])
  }

  /** `LastFailure` is success iff every code is, and otherwise the code at the last failing position. */
  lemma {:induction false} LastFailureIsLast(codes: seq<Code>)
    ensures LastFailure(codes) == Success <==> forall i :: 0 <= i < |codes| ==> codes[i] == Success
    ensures LastFailure(codes) != Success ==>
      exists i :: 0 <= i < |codes| && codes[i] == LastFailure(codes) && forall j :: i < j < |codes| ==> codes[j] == Success
  {
    if codes != [] && codes[|codes| - 1] == Success {
      var init := codes[..|codes| - 1];
      LastFailureIsLast(init);
      assert forall i :: 0 <= i < |init| ==> init[i] == codes[i];
    }
  }

  // ---------------------------------------------------------------------
  // Lookup
  // ---------------------------------------------------------------------

  /** The first module of `ms` in `slot`. */
  function FindSlot(ms: seq<Module>, slot: int): Option<nat>
  {
    FirstWhere(ms, (m: Module) => m.slot == slot)
  }

  datatype Option<T> = None | Some(value: T)

  /** `crate::find`: the first online module in `slot`, else the first offline one. */
  function Find(modules: seq<Module>, offline: seq<Module>, slot: int): (r: Result<Module>)
    ensures r.Ok? <==> ((exists i :: 0 <= i < |modules| && modules[i].slot == slot)
                        || (exists i :: 0 <= i < |offline| && offline[i].slot == slot))
    ensures r.Err? ==> r.code == ModuleNumberInvalid
    ensures r.Ok? && (exists i :: 0 <= i < |modules| && modules[i].slot == slot) ==>
      exists i :: 0 <= i < |modules| && r.value == modules[i] && forall j :: 0 <= j < i ==> modules[j].slot != slot
    ensures r.Ok? && (forall i :: 0 <= i < |modules| ==> modules[i].slot != slot) ==>
      exists i :: 0 <= i < |offline| && r.value == offline[i] && forall j :: 0 <= j < i ==> offline[j].slot != slot
  {
    match FindSlot(modules, slot)
    case Some(i) => Ok(modules[i])
    case None =>
      match FindSlot(offline, slot)
      case Some(i) => Ok(offline[i])
      case None => Err(ModuleNumberInvalid)
  }

  /**
   * One step of `check_revision`: a present module sets the revision while
   * the revision held is still negative; mismatches later only warn.
   */
  function RevisionStep(revision: int, m: Module): int
  {
    if m.present && revision < 0 then m.crateRevision else revision
  }

  /** The revision `check_revision` leaves after scanning `ms` from -1. */
  function RevisionOf(ms: seq<Module>): int
  {
    if ms == [] then -1 else RevisionStep(RevisionOf(ms[..|ms| - 1]), ms[|ms| - 1])
  }

  lemma {:induction false} RevisionNoPresent(ms: seq<Module>)
    requires forall j :: 0 <= j < |ms| ==> !ms[j].present
    ensures RevisionOf(ms) == -1
  {
    if ms != [] {
      RevisionNoPresent(ms[..|ms| - 1]);
    }
  }

  lemma {:induction false} RevisionKept(ms: seq<Module>, p: nat)
    requires p < |ms| && RevisionOf(ms[..p + 1]) >= 0
    ensures RevisionOf(ms) == RevisionOf(ms[..p + 1])
    decreases |ms|
  {
    if |ms| > p + 1 {
      var init := ms[..|ms| - 1];
      assert init[..p + 1] == ms[..p + 1];
      RevisionKept(init, p);
    } else {
      assert ms[..p + 1] == ms;
    }
  }

  /**
   * While every present module reports a negative crate revision, each one
   * overwrites the revision held: the scan holds the last one's, or -1.
   */
  lemma {:induction false} RevisionAllNegative(ms: seq<Module>)
    requires forall j :: 0 <= j < |ms| && ms[j].present ==> ms[j].crateRevision < 0
    ensures RevisionOf(ms) < 0
    ensures forall p :: 0 <= p < |ms| && ms[p].present && (forall j :: p < j < |ms| ==> !ms[j].present)
                        ==> RevisionOf(ms) == ms[p].crateRevision
  {
    if ms != [] {
      var init := ms[..|ms| - 1];
      RevisionAllNegative(init);
      forall p | 0 <= p < |ms| && ms[p].present && (forall j :: p < j < |ms| ==> !ms[j].present)
        ensures RevisionOf(ms) == ms[p].crateRevision
      {
        if p < |ms| - 1 {
          assert init[p] == ms[p];
          assert forall j :: p < j < |init| ==> !init[j].present;
        }
      }
    }
  }

  /**
   * `check_revision` settles on the crate revision of the first present
   * module whose revision is not negative: present modules before it with a
   * negative revision are overwritten, and modules after it never change it.
   */
  lemma {:induction false} RevisionOfFirstPresent(ms: seq<Module>, p: nat)
    requires p < |ms| && ms[p].present && ms[p].crateRevision >= 0
    requires forall j :: 0 <= j < p && ms[j].present ==> ms[j].crateRevision < 0
    ensures RevisionOf(ms) == ms[p].crateRevision
  {
    var pre := ms[..p + 1];
    assert pre[..p] == ms[..p];
    RevisionAllNegative(ms[..p]);
    RevisionKept(ms, p);
  }

  // ---------------------------------------------------------------------
  // Duplicate slots
  // ---------------------------------------------------------------------

  /** Some recorded pair's first module is in `slot`. */
  predicate HasSlot(dups: seq<(Module, Module)>, slot: int)
  {
    exists k :: 0 <= k < |dups| && dups[k].0.slot == slot
  }

  lemma HasSlotGrows(a: seq<(Module, Module)>, b: seq<(Module, Module)>, slot: int)
    requires HasSlot(a, slot) && a <= b
    ensures HasSlot(b, slot)
  {
    var k :| 0 <= k < |a| && a[k].0.slot == slot;
    assert b[k] == a[k];
  }

  /** A pair of distinct present modules in the same slot, a slot with no pair yet. */
  predicate NewDup(dups: seq<(Module, Module)>, mod: Module, compare: Module)
  {
    mod.present && compare.present && mod.id != compare.id && mod.slot == compare.slot
    && !HasSlot(dups, mod.slot)
  }

  /** `find_dups::check` of `mod` against `all[j..]`. */
  function DupsAgainst(dups: seq<(Module, Module)>, mod: Module, all: seq<Module>, j: nat): (r: seq<(Module, Module)>)
    requires j <= |all|
    ensures dups <= r
    decreases |all| - j
  {
    if j == |all| then dups
    else DupsAgainst(if NewDup(dups, mod, all[j]) then dups + [(mod, all[j])] else dups, mod, all, j + 1)
  }

  /** The duplicates `check_slots` collects, checking `all[i..]` against all modules. */
  function DupsFrom(dups: seq<(Module, Module)>, all: seq<Module>, i: nat): (r: seq<(Module, Module)>)
    requires i <= |all|
    ensures dups <= r
    decreases |all| - i
  {
    if i == |all| then dups else DupsFrom(DupsAgainst(dups, all[i], all, 0), all, i + 1)
  }

  /** Every recorded pair is two distinct present modules of the module list in one slot, at most one pair per slot. */
  predicate GoodDups(dups: seq<(Module, Module)>, all: seq<Module>)
  {
    && (forall k :: 0 <= k < |dups| ==>
          dups[k].0 in all && dups[k].1 in all && dups[k].0.present && dups[k].1.present
          && dups[k].0.id != dups[k].1.id && dups[k].0.slot == dups[k].1.slot)
    && (forall k, l :: 0 <= k < l < |dups| ==> dups[k].0.slot != dups[l].0.slot)
  }

  lemma {:induction false} DupsAgainstGood(dups: seq<(Module, Module)>, mod: Module, all: seq<Module>, j: nat)
    requires j <= |all| && GoodDups(dups, all) && mod in all
    ensures GoodDups(DupsAgainst(dups, mod, all, j), all)
    decreases |all| - j
  {
    if j < |all| {
      var next := if NewDup(dups, mod, all[j]) then dups + [(mod, all[j])] else dups;
      DupsAgainstGood(next, mod, all, j + 1);
    }
  }

  /** Checking `mod` against a module in its slot leaves a pair for that slot. */
  lemma {:induction false} DupsAgainstCovers(dups: seq<(Module, Module)>, mod: Module, all: seq<Module>, j: nat, c: nat)
    requires j <= c < |all| && mod.present && all[c].present && mod.id != all[c].id && mod.slot == all[c].slot
    ensures HasSlot(DupsAgainst(dups, mod, all, j), mod.slot)
    decreases |all| - j
  {
    var next := if NewDup(dups, mod, all[j]) then dups + [(mod, all[j])] else dups;
    if j == c {
      if !HasSlot(dups, mod.slot) {
        assert next[|dups|].0.slot == mod.slot;
      }
      assert HasSlot(next, mod.slot);
      HasSlotGrows(next, DupsAgainst(dups, mod, all, j), mod.slot);
    } else {
      DupsAgainstCovers(next, mod, all, j + 1, c);
    }
  }

  /** `check_slots` records only pairs of distinct present modules sharing a slot, one pair per slot. */
  lemma {:induction false} DupsSound(dups: seq<(Module, Module)>, all: seq<Module>, i: nat)
    requires i <= |all| && GoodDups(dups, all)
    ensures GoodDups(DupsFrom(dups, all, i), all)
    decreases |all| - i
  {
    if i < |all| {
      DupsAgainstGood(dups, all[i], all, 0);
      DupsSound(DupsAgainst(dups, all[i], all, 0), all, i + 1);
    }
  }

  /** Every slot that two distinct present modules share gets a pair. */
  lemma {:induction false} DupsComplete(dups: seq<(Module, Module)>, all: seq<Module>, i: nat, a: nat, b: nat)
    requires i <= a < |all| && b < |all|
    requires all[a].present && all[b].present && all[a].id != all[b].id && all[a].slot == all[b].slot
    ensures HasSlot(DupsFrom(dups, all, i), all[a].slot)
    decreases |all| - i
  {
    if i == a {
      var after := DupsAgainst(dups, all[a], all, 0);
      DupsAgainstCovers(dups, all[a], all, 0, b);
      HasSlotGrows(after, DupsFrom(after, all, i + 1), all[a].slot);
    } else {
      DupsComplete(DupsAgainst(dups, all[i], all, 0), all, i + 1, a, b);
    }
  }

  /**
   * The duplicates `check_slots` finds: each pair is two distinct present
   * modules sharing a slot, one pair per slot, and every slot that two
   * distinct present modules share has a pair.
   */
  lemma DupsOfAll(all: seq<Module>)
    ensures GoodDups(DupsFrom([], all, 0), all)
    ensures forall a, b :: 0 <= a < |all| && 0 <= b < |all| && all[a].present && all[b].present
                           && all[a].id != all[b].id && all[a].slot == all[b].slot
                           ==> HasSlot(DupsFrom([], all, 0), all[a].slot)
  {
    DupsSound([], all, 0);
    forall a, b | 0 <= a < |all| && 0 <= b < |all| && all[a].present && all[b].present
                  && all[a].id != all[b].id && all[a].slot == all[b].slot
      ensures HasSlot(DupsFrom([], all, 0), all[a].slot)
    {
      DupsComplete([], all, 0, a, b);
    }
  }

  /** The first entry of `ms` for the module object `id`. */
  function Lookup(ms: seq<Module>, id: nat): (r: Option<Module>)
    ensures r.Some? ==> r.value in ms && r.value.id == id
  {
    if ms == [] then None else if ms[0].id == id then Some(ms[0]) else Lookup(ms[1..], id)
  }

  /** Setting the slot of the module object `id`: every entry for it changes. */
  function SetSlot(ms: seq<Module>, id: nat, slot: int): (r: seq<Module>)
    ensures |r| == |ms|
    ensures forall i :: 0 <= i < |ms| ==> r[i] == if ms[i].id == id then ms[i].(slot := slot) else ms[i]
  {
    seq(|ms|, i requires 0 <= i < |ms| => if ms[i].id == id then ms[i].(slot := slot) else ms[i])
  }

  /**
   * The repair `check_slots` makes for one duplicate on a revision 2 crate:
   * of two modules in slot 5 on one PCI bus, the one at PCI slot 13 is
   * moved to slot 4. The modules' current state is looked up by identity.
   */
  function FixDup(ms: seq<Module>, os: seq<Module>, dup: (Module, Module), revision: int): (seq<Module>, seq<Module>)
  {
    match (Lookup(ms + os, dup.0.id), Lookup(ms + os, dup.1.id))
    case (Some(m1), Some(m2)) =>
      if revision == 2 && m1.slot == 5 && m1.pciBus == m2.pciBus then
        if m1.pciSlot == 13 then (SetSlot(ms, m1.id, 4), SetSlot(os, m1.id, 4))
        else if m2.pciSlot == 13 then (SetSlot(ms, m2.id, 4), SetSlot(os, m2.id, 4))
        else (ms, os)
      else (ms, os)
    case _ => (ms, os)
  }

  function FixFrom(ms: seq<Module>, os: seq<Module>, dups: seq<(Module, Module)>, revision: int, k: nat): (seq<Module>, seq<Module>)
    requires k <= |dups|
    decreases |dups| - k
  {
    if k == |dups| then (ms, os)
    else
      var fixed := FixDup(ms, os, dups[k], revision);
      FixFrom(fixed.0, fixed.1, dups, revision, k + 1)
  }

  /** The tables after `check_slots`. */
  function CheckSlotsOf(ms: seq<Module>, os: seq<Module>, revision: int): (seq<Module>, seq<Module>)
  {
    FixFrom(ms, os, DupsFrom([], ms + os, 0), revision, 0)
  }

  /** `check_slots` changes nothing but slots, and only on a revision 2 crate. */
  lemma CheckSlotsOnlySlots(ms: seq<Module>, os: seq<Module>, revision: int)
    ensures OnlySlotTo4(ms, CheckSlotsOf(ms, os, revision).0)
    ensures OnlySlotTo4(os, CheckSlotsOf(ms, os, revision).1)
    ensures revision != 2 ==> CheckSlotsOf(ms, os, revision) == (ms, os)
  {
    FixFromOnlySlots(ms, os, DupsFrom([], ms + os, 0), revision, 0);
  }

  /** `after` is `before` with at most some modules moved to slot 4: nothing but slots changes. */
  predicate OnlySlotTo4(before: seq<Module>, after: seq<Module>)
  {
    |after| == |before| &&
    forall i :: 0 <= i < |before| ==> after[i] == before[i] || after[i] == before[i].(slot := 4)
  }

  lemma FixDupOnlySlots(ms: seq<Module>, os: seq<Module>, dup: (Module, Module), revision: int)
    ensures OnlySlotTo4(ms, FixDup(ms, os, dup, revision).0)
    ensures OnlySlotTo4(os, FixDup(ms, os, dup, revision).1)
    ensures revision != 2 ==> FixDup(ms, os, dup, revision) == (ms, os)
  {
  }

  /**
   * `check_slots` changes nothing but slots, and only by moving modules to
   * slot 4; on a crate whose revision is not 2 it changes nothing.
   */
  lemma {:induction false} FixFromOnlySlots(ms: seq<Module>, os: seq<Module>, dups: seq<(Module, Module)>, revision: int, k: nat)
    requires k <= |dups|
    ensures OnlySlotTo4(ms, FixFrom(ms, os, dups, revision, k).0)
    ensures OnlySlotTo4(os, FixFrom(ms, os, dups, revision, k).1)
    ensures revision != 2 ==> FixFrom(ms, os, dups, revision, k) == (ms, os)
    decreases |dups| - k
  {
    if k < |dups| {
      var fixed := FixDup(ms, os, dups[k], revision);
      FixDupOnlySlots(ms, os, dups[k], revision);
      FixFromOnlySlots(fixed.0, fixed.1, dups, revision, k + 1);
    }
  }

  // ---------------------------------------------------------------------
  // `initialize`'s device scan
  // ---------------------------------------------------------------------

  /** The collections and the outcome at the end of `initialize`'s device loop. */
  datatype Scan = Scan(modules: seq<Module>, offline: seq<Module>, status: Outcome)

  /**
   * `initialize`'s device loop from device `i` on: each device's module is
   * added to `modules`; an escaping exception ends the scan with the module
   * still added; a device that is not there is dropped and ends the scan;
   * a device whose module is not present moves to `offline`.
   */
  function ScanFrom(modules: seq<Module>, offline: seq<Module>, opens: seq<OpenResult>, i: nat): (r: Scan)
    requires i <= |opens|
    ensures modules <= r.modules && offline <= r.offline
    decreases |opens| - i
  {
    if i == |opens| then Scan(modules, offline, Pass)
    else match opens[i]
      case Escaped(m, c) => Scan(modules + [m], offline, Fail(c))
      case Opened(m) =>
        if !m.devicePresent then Scan(modules, offline, Pass)
        else if m.present then ScanFrom(modules + [m], offline, opens, i + 1)
        else ScanFrom(modules, offline + [m], opens, i + 1)
  }

  /**
   * The modules of the devices the scan keeps from device `i`: devices in
   * ascending order up to, not including, the first one that is missing or
   * whose open lets an exception escape.
   */
  function Found(opens: seq<OpenResult>, i: nat): (r: seq<Module>)
    requires i <= |opens|
    ensures i + |r| <= |opens|
    ensures forall k :: i <= k < i + |r| ==> opens[k].Opened? && r[k - i] == opens[k].m && opens[k].m.devicePresent
    ensures i + |r| < |opens| ==> opens[i + |r|].Escaped? || !opens[i + |r|].m.devicePresent
    decreases |opens| - i
  {
    if i == |opens| || opens[i].Escaped? || !opens[i].m.devicePresent then []
    else [opens[i].m] + Found(opens, i + 1)
  }

  /**
   * The scan in closed form: of the devices found, the present ones are
   * appended to `modules` and the others to `offline`, in device order; an
   * escaping exception fails the scan and leaves its module in `modules`.
   */
  function ScanClosed(ms: seq<Module>, os: seq<Module>, opens: seq<OpenResult>, i: nat): Scan
    requires i <= |opens|
  {
    var found := Found(opens, i);
    var k := i + |found|;
    if k < |opens| && opens[k].Escaped? then
      Scan(ms + Keep(found, Present, true) + [opens[k].m], os + Keep(found, Present, false), Fail(opens[k].code))
    else
      Scan(ms + Keep(found, Present, true), os + Keep(found, Present, false), Pass)
  }

  /** `initialize`'s device loop is the closed form. */
  lemma {:induction false} ScanClosedForm(ms: seq<Module>, os: seq<Module>, opens: seq<OpenResult>, i: nat)
    requires i <= |opens|
    ensures ScanFrom(ms, os, opens, i) == ScanClosed(ms, os, opens, i)
    decreases |opens| - i
  {
    if i < |opens| && opens[i].Opened? && opens[i].m.devicePresent {
      var m := opens[i].m;
      if m.present {
        ScanClosedForm(ms + [m], os, opens, i + 1);
      } else {
        ScanClosedForm(ms, os + [m], opens, i + 1);
      }
      ScanClosedStep(ms, os, opens, i);
    } else {
      assert Found(opens, i) == [];
      assert ms + [] == ms && os + [] == os;
    }
  }

  lemma ScanClosedStep(ms: seq<Module>, os: seq<Module>, opens: seq<OpenResult>, i: nat)
    requires i < |opens| && opens[i].Opened? && opens[i].m.devicePresent
    ensures opens[i].m.present ==> ScanClosed(ms, os, opens, i) == ScanClosed(ms + [opens[i].m], os, opens, i + 1)
    ensures !opens[i].m.present ==> ScanClosed(ms, os, opens, i) == ScanClosed(ms, os + [opens[i].m], opens, i + 1)
  {
    var m := opens[i].m;
    var rest := Found(opens, i + 1);
    assert Found(opens, i) == [m] + rest;
    if m.present {
      ScanClosedPresent(ms, os, m, rest);
    } else {
      ScanClosedAbsent(ms, os, m, rest);
    }
  }

  lemma ScanClosedPresent(ms: seq<Module>, os: seq<Module>, m: Module, rest: seq<Module>)
    requires m.present
    ensures ms + Keep([m] + rest, Present, true) == ms + [m] + Keep(rest, Present, true)
    ensures os + Keep([m] + rest, Present, false) == os + Keep(rest, Present, false)
  {
    KeepHead(m, rest, Present, true);
    KeepHead(m, rest, Present, false);
  }

  lemma ScanClosedAbsent(ms: seq<Module>, os: seq<Module>, m: Module, rest: seq<Module>)
    requires !m.present
    ensures ms + Keep([m] + rest, Present, true) == ms + Keep(rest, Present, true)
    ensures os + Keep([m] + rest, Present, false) == os + [m] + Keep(rest, Present, false)
  {
    KeepHead(m, rest, Present, true);
    KeepHead(m, rest, Present, false);
  }

  lemma KeepHead(m: Module, rest: seq<Module>, f: Flag, want: bool)
    ensures Keep([m] + rest, f, want) == (if Has(m, f) == want then [m] else []) + Keep(rest, f, want)
  {
    assert ([m] + rest)[1..] == rest;
  }

  // ---------------------------------------------------------------------
  // `boot`, `initialize_afe` and `probe`
  // ---------------------------------------------------------------------

  /** `boot` skips a module with no revision, and an online one unless forced. */
  predicate BootSkips(m: Module, force: bool)
  {
    m.revision == 0 || (!force && m.online)
  }

  /** `0, 1, ..., n - 1`, the numbers an empty module list stands for. */
  function AllNumbers(n: nat): (r: seq<nat>)
    ensures |r| == n && forall i :: 0 <= i < n ==> r[i] == i
  {
    seq(n, i => i)
  }

  /** The module numbers `boot` works on, or `module_number_invalid` when one is out of range. */
  function BootNumbers(count: nat, requested: seq<nat>): (r: Result<seq<nat>>)
    ensures r.Ok? <==> forall k :: 0 <= k < |requested| ==> requested[k] < count
    ensures r.Ok? ==> r.value == if requested == [] then AllNumbers(count) else requested
    ensures r.Err? ==> r.code == ModuleNumberInvalid
  {
    if requested == [] then Ok(AllNumbers(count))
    else if exists k :: 0 <= k < |requested| && requested[k] >= count then Err(ModuleNumberInvalid)
    else Ok(requested)
  }

  /** The module numbers `boot` launches, in launch order. */
  function Launched(ms: seq<Module>, nums: seq<nat>, force: bool): (r: seq<nat>)
    requires forall k :: 0 <= k < |nums| ==> nums[k] < |ms|
    ensures forall t :: 0 <= t < |r| ==> r[t] < |ms| && !BootSkips(ms[r[t]], force)
  {
    if nums == [] then []
    else
      var n := nums[|nums| - 1];
      var init := Launched(ms, nums[..|nums| - 1], force);
      if BootSkips(ms[n], force) then init else init + [n]
  }

  /** `Launched` keeps exactly the requested numbers of modules that are not skipped, in request order. */
  lemma {:induction false} LaunchedExactly(ms: seq<Module>, nums: seq<nat>, force: bool)
    requires forall k :: 0 <= k < |nums| ==> nums[k] < |ms|
    ensures forall n :: n in Launched(ms, nums, force) <==> n in nums && !BootSkips(ms[n], force)
  {
    if nums != [] {
      LaunchedExactly(ms, nums[..|nums| - 1], force);
      assert nums == nums[..|nums| - 1] + [nums[|nums| - 1]];
    }
  }

  /** The numbers of the online modules, the ones `initialize_afe` launches. */
  function OnlineNumbers(ms: seq<Module>, n: nat): (r: seq<nat>)
    requires n <= |ms|
    ensures forall t :: 0 <= t < |r| ==> r[t] < n && ms[r[t]].online
    ensures forall t, u :: 0 <= t < u < |r| ==> r[t] < r[u]
  {
    if n == 0 then [] else OnlineNumbers(ms, n - 1) + (if ms[n - 1].online then [n - 1] else [])
  }

  /** `initialize_afe` launches every online module. */
  lemma {:induction false} OnlineNumbersComplete(ms: seq<Module>, n: nat)
    requires n <= |ms|
    ensures forall i :: 0 <= i < n && ms[i].online ==> i in OnlineNumbers(ms, n)
  {
    if n > 0 {
      OnlineNumbersComplete(ms, n - 1);
    }
  }

  /** The codes of the launched modules, in launch order. */
  function CodesOf(codes: seq<Code>, launched: seq<nat>): (r: seq<Code>)
    requires forall t :: 0 <= t < |launched| ==> launched[t] < |codes|
    ensures |r| == |launched| && forall t :: 0 <= t < |r| ==> r[t] == codes[launched[t]]
  {
    seq(|launched|, t requires 0 <= t < |launched| => codes[launched[t]])
  }

  /** No module number is launched twice (a second `get_future` would throw). */
  predicate Distinct(nums: seq<nat>)
  {
    forall t, u :: 0 <= t < u < |nums| ==> nums[t] != nums[u]
  }

  /** The outcome of `boot` on modules `ms` whose boots would give `bootCodes`. */
  function BootOf(ms: seq<Module>, ready: bool, params: BootParams, bootCodes: seq<Code>): Outcome
    requires |bootCodes| == |ms|
  {
    match BootNumbers(|ms|, params.modules)
    case Err(c) => Fail(c)
    case Ok(nums) =>
      if !ready then Fail(CrateNotReady)
      else ToOutcome(FirstFailure(CodesOf(bootCodes, Launched(ms, nums, params.force))))
  }

  /**
   * `boot` passes iff every requested number is in range, the crate is
   * ready and every launched module boots; a failing boot raises the code
   * of the first launched module that failed.
   */
  lemma BootMeaning(ms: seq<Module>, ready: bool, params: BootParams, bootCodes: seq<Code>)
    requires |bootCodes| == |ms|
    ensures BootOf(ms, ready, params, bootCodes).Pass? <==>
      && (forall k :: 0 <= k < |params.modules| ==> params.modules[k] < |ms|)
      && ready
      && var launched := Launched(ms, BootNumbers(|ms|, params.modules).value, params.force);
         forall t :: 0 <= t < |launched| ==> bootCodes[launched[t]] == Success
    ensures (exists k :: 0 <= k < |params.modules| && params.modules[k] >= |ms|) ==>
      BootOf(ms, ready, params, bootCodes) == Fail(ModuleNumberInvalid)
  {
    match BootNumbers(|ms|, params.modules)
    case Err(_) =>
    case Ok(nums) =>
      FirstFailureIsFirst(CodesOf(bootCodes, Launched(ms, nums, params.force)));
  }

  /** The outcome of `initialize_afe` on modules `ms` whose `sync_hw` would give `syncCodes`. */
  function InitializeAfeOf(ms: seq<Module>, ready: bool, syncCodes: seq<Code>): Outcome
    requires |syncCodes| == |ms|
  {
    if !ready then Fail(CrateNotReady) else ToOutcome(FirstFailure(CodesOf(syncCodes, OnlineNumbers(ms, |ms|))))
  }

  /** `initialize_afe` passes iff the crate is ready and every online module synchronises. */
  lemma InitializeAfeMeaning(ms: seq<Module>, ready: bool, syncCodes: seq<Code>)
    requires |syncCodes| == |ms|
    ensures InitializeAfeOf(ms, ready, syncCodes).Pass? <==>
      ready && forall i :: 0 <= i < |ms| && ms[i].online ==> syncCodes[i] == Success
  {
    var launched := OnlineNumbers(ms, |ms|);
    FirstFailureIsFirst(CodesOf(syncCodes, launched));
    OnlineNumbersComplete(ms, |ms|);
    if ready && FirstFailure(CodesOf(syncCodes, launched)) == Success {
      forall i | 0 <= i < |ms| && ms[i].online ensures syncCodes[i] == Success {
        var t :| 0 <= t < |launched| && launched[t] == i;
        assert CodesOf(syncCodes, launched)[t] == syncCodes[i];
      }
    }
  }

  /** A module after `probe`: its present and online flags as the probe found them. */
  function ProbeApply(m: Module, p: ProbeResult): Module
  {
    if p.Probed? then m.(present := p.present, online := p.online) else m
  }

  /** The modules after probing the first `n`. */
  function ProbedFirst(ms: seq<Module>, results: seq<ProbeResult>, n: nat): (r: seq<Module>)
    requires n <= |ms| == |results|
    ensures |r| == |ms|
    ensures forall i :: 0 <= i < |ms| ==> r[i] == if i < n then ProbeApply(ms[i], results[i]) else ms[i]
  {
    seq(|ms|, i requires 0 <= i < |ms| => if i < n then ProbeApply(ms[i], results[i]) else ms[i])
  }

  /** The first probe that throws. */
  function FirstProbeFailure(results: seq<ProbeResult>): (r: Option<nat>)
    ensures r.Some? ==> r.value < |results| && results[r.value].ProbeFailed?
                        && forall j :: 0 <= j < r.value ==> results[j].Probed?
    ensures r.None? ==> forall j :: 0 <= j < |results| ==> results[j].Probed?
  {
    if results == [] then None
    else if results[0].ProbeFailed? then Some(0)
    else match FirstProbeFailure(results[1..])
      case None => None
      case Some(k) => Some(k + 1)
  }

  /** One call per module, in order. */
  function ProbeCalls(ms: seq<Module>): (r: seq<Call>)
    ensures |r| == |ms| && forall i :: 0 <= i < |ms| ==> r[i] == Probe(ms[i].id)
  {
    seq(|ms|, i requires 0 <= i < |ms| => Probe(ms[i].id))
  }

  function CloseCalls(ms: seq<Module>): (r: seq<Call>)
    ensures |r| == |ms| && forall i :: 0 <= i < |ms| ==> r[i] == Close(ms[i].id)
  {
    seq(|ms|, i requires 0 <= i < |ms| => Close(ms[i].id))
  }

  function OfflineCalls(ms: seq<Module>): (r: seq<Call>)
    ensures |r| == |ms| && forall i :: 0 <= i < |ms| ==> r[i] == BackplaneOffline(ms[i].id)
  {
    seq(|ms|, i requires 0 <= i < |ms| => BackplaneOffline(ms[i].id))
  }

  function SyncCalls(ms: seq<Module>, launched: seq<nat>): (r: seq<Call>)
    requires forall t :: 0 <= t < |launched| ==> launched[t] < |ms|
    ensures |r| == |launched| && forall t :: 0 <= t < |r| ==> r[t] == SyncHw(ms[launched[t]].id)
  {
    seq(|launched|, t requires 0 <= t < |launched| => SyncHw(ms[launched[t]].id))
  }

  function BootCalls(ms: seq<Module>, launched: seq<nat>, params: BootParams): (r: seq<Call>)
    requires forall t :: 0 <= t < |launched| ==> launched[t] < |ms|
    ensures |r| == |launched|
    ensures forall t :: 0 <= t < |r| ==> r[t] == Boot(ms[launched[t]].id, params.bootComms, params.bootFippi, params.bootDsp)
  {
    seq(|launched|, t requires 0 <= t < |launched| => Boot(ms[launched[t]].id, params.bootComms, params.bootFippi, params.bootDsp))
  }

  /** `probe`'s answer: the count of online modules equals `num_modules`. */
  lemma ProbeAnswer(ms: seq<Module>, numModules: nat)
    requires numModules == |ms|
    ensures |Keep(ms, Online, true)| == numModules <==> forall i :: 0 <= i < |ms| ==> ms[i].online
  {
    KeepAll(ms, Online, true);
  }

  // ---------------------------------------------------------------------
  // `assign`
  // ---------------------------------------------------------------------

  /** Every module after `module::assign` gave it the number in `numbers`. */
  function Renumber(ms: seq<Module>, numbers: seq<int>): (r: seq<Module>)
    requires |numbers| == |ms|
    ensures |r| == |ms| && forall i :: 0 <= i < |ms| ==> r[i] == ms[i].(number := numbers[i])
  {
    seq(|ms|, i requires 0 <= i < |ms| => ms[i].(number := numbers[i]))
  }

  /** The collections, the calls and the outcome at the end of `assign`'s restart loop. */
  datatype Unassign = Unassign(modules: seq<Module>, offline: seq<Module>, calls: seq<Call>, status: Outcome)

  /**
   * `assign`'s restart loop: while some module has number -1, the first one
   * is closed and erased (when `close`) or set offline. A failing close
   * throws and leaves that module in place.
   */
  function UnassignFrom(ms: seq<Module>, os: seq<Module>, calls: seq<Call>, close: bool, closeCodes: map<nat, Code>): Unassign
    decreases |ms|
  {
    match FirstFailing(ms, Assigned)
    case None => Unassign(ms, os, calls, Pass)
    case Some(k) =>
      var m := ms[k];
      if close then
        var c := if m.id in closeCodes then closeCodes[m.id] else Success;
        if c != Success then Unassign(ms, os, calls + [Close(m.id)], Fail(c))
        else UnassignFrom(RemoveAt(ms, k), os, calls + [Close(m.id)], close, closeCodes)
      else UnassignFrom(RemoveAt(ms, k), os + [m], calls + [ForceOffline(m.id)], close, closeCodes)
  }

  /**
   * When `assign`'s restart loop passes, `modules` keeps exactly the
   * numbered modules in order; with `close` the others are gone, otherwise
   * they are appended to `offline` in their original order.
   */
  lemma {:induction false} UnassignMeaning(ms: seq<Module>, os: seq<Module>, calls: seq<Call>, close: bool, closeCodes: map<nat, Code>)
    ensures var r := UnassignFrom(ms, os, calls, close, closeCodes);
      r.status.Pass? ==>
        && r.modules == Keep(ms, Assigned, true)
        && r.offline == (if close then os else os + Keep(ms, Assigned, false))
  {
    if close {
      UnassignCloseMeaning(ms, os, calls, closeCodes);
    } else {
      UnassignOfflineMeaning(ms, os, calls, closeCodes);
    }
  }

  lemma {:induction false} UnassignCloseMeaning(ms: seq<Module>, os: seq<Module>, calls: seq<Call>, closeCodes: map<nat, Code>)
    ensures var r := UnassignFrom(ms, os, calls, true, closeCodes);
      r.status.Pass? ==> r.modules == Keep(ms, Assigned, true) && r.offline == os
    decreases |ms|
  {
    match FirstFailing(ms, Assigned)
    case None =>
      KeepEvery(ms, Assigned, true);
    case Some(k) =>
      var m := ms[k];
      RemoveFirstFailing(ms, k, Assigned);
      if m.id !in closeCodes || closeCodes[m.id] == Success {
        UnassignCloseMeaning(RemoveAt(ms, k), os, calls + [Close(m.id)], closeCodes);
      }
  }

  lemma {:induction false} UnassignOfflineMeaning(ms: seq<Module>, os: seq<Module>, calls: seq<Call>, closeCodes: map<nat, Code>)
    ensures var r := UnassignFrom(ms, os, calls, false, closeCodes);
      r.status.Pass? ==> r.modules == Keep(ms, Assigned, true) && r.offline == os + Keep(ms, Assigned, false)
    decreases |ms|
  {
    match FirstFailing(ms, Assigned)
    case None =>
      KeepEvery(ms, Assigned, true);
    case Some(k) =>
      var m, rest := ms[k], RemoveAt(ms, k);
      UnassignOfflineMeaning(rest, os + [m], calls + [ForceOffline(m.id)], closeCodes);
      OfflineStep(ms, os, k, UnassignFrom(rest, os + [m], calls + [ForceOffline(m.id)], false, closeCodes));
  }

  /** One step of the offline case: the module moved first leads the rest that fail. */
  lemma OfflineStep(ms: seq<Module>, os: seq<Module>, k: nat, r: Unassign)
    requires k < |ms| && !Has(ms[k], Assigned) && forall j :: 0 <= j < k ==> Has(ms[j], Assigned)
    requires r.status.Pass? ==>
      r.modules == Keep(RemoveAt(ms, k), Assigned, true) && r.offline == (os + [ms[k]]) + Keep(RemoveAt(ms, k), Assigned, false)
    ensures r.status.Pass? ==> r.modules == Keep(ms, Assigned, true) && r.offline == os + Keep(ms, Assigned, false)
  {
    RemoveFirstFailing(ms, k, Assigned);
    var tail := Keep(RemoveAt(ms, k), Assigned, false);
    assert (os + [ms[k]]) + tail == os + ([ms[k]] + tail);
  }

  /** Without closing, `assign`'s restart loop always passes: `force_offline` does not fail. */
  lemma {:induction false} UnassignForceOfflinePasses(ms: seq<Module>, os: seq<Module>, calls: seq<Call>, closeCodes: map<nat, Code>)
    ensures UnassignFrom(ms, os, calls, false, closeCodes).status.Pass?
    decreases |ms|
  {
    match FirstFailing(ms, Assigned)
    case None =>
    case Some(k) =>
      UnassignForceOfflinePasses(RemoveAt(ms, k), os + [ms[k]], calls + [ForceOffline(ms[k].id)], closeCodes);
  }

  // ---------------------------------------------------------------------
  // Loops of `check_slots`
  // ---------------------------------------------------------------------

  /** The `std::find_if` of `find_dups::check`: whether a pair is already recorded for `slot`. */
  method HasDupFor(dups: seq<(Module, Module)>, slot: int) returns (found: bool)
    ensures found <==> HasSlot(dups, slot)
  {
    found := false;
    var d := 0;
    while d < |dups| && !found
      invariant 0 <= d <= |dups|
      invariant found <==> exists k :: 0 <= k < d && dups[k].0.slot == slot
    {
      found := dups[d].0.slot == slot;
      d := d + 1;
    }
  }

  /** Checking a module that is not present records nothing. */
  lemma {:induction false} DupsAgainstAbsent(dups: seq<(Module, Module)>, mod: Module, all: seq<Module>, j: nat)
    requires j <= |all| && !mod.present
    ensures DupsAgainst(dups, mod, all, j) == dups
    decreases |all| - j
  {
    if j < |all| {
      DupsAgainstAbsent(dups, mod, all, j + 1);
    }
  }

  /** `find_dups::check` for one module: compares it with every module of the crate. */
  method CheckModule(dups0: seq<(Module, Module)>, mod: Module, all: seq<Module>) returns (dups: seq<(Module, Module)>)
    ensures dups == DupsAgainst(dups0, mod, all, 0)
  {
    dups := dups0;
    if !mod.present {
      DupsAgainstAbsent(dups, mod, all, 0);
      return;
    }
    var j := 0;
    while j < |all|
      invariant 0 <= j <= |all|
      invariant DupsAgainst(dups, mod, all, j) == DupsAgainst(dups0, mod, all, 0)
    {
      var compare := all[j];
      if compare.present && mod.id != compare.id && mod.slot == compare.slot {
        var seen := HasDupFor(dups, mod.slot);
        if !seen {
          dups := dups + [(mod, compare)];
        }
      }
      j := j + 1;
    }
  }

  /** The `find_dups` pass of `check_slots` over every module, online ones first. */
  method FindDups(all: seq<Module>) returns (dups: seq<(Module, Module)>)
    ensures dups == DupsFrom([], all, 0)
    ensures GoodDups(dups, all)
  {
    dups := [];
    var i := 0;
    while i < |all|
      invariant 0 <= i <= |all|
      invariant DupsFrom(dups, all, i) == DupsFrom([], all, 0)
      invariant GoodDups(dups, all)
    {
      DupsAgainstGood(dups, all[i], all, 0);
      dups := CheckModule(dups, all[i], all);
      i := i + 1;
    }
    DupsSound([], all, 0);
  }

  // ---------------------------------------------------------------------
  // The crate
  // ---------------------------------------------------------------------

  /** A crate of modules: the online and offline collections and the crate's counters. */
  class Crate {
    /** The number of usable modules `operator[]` range checks against. */
    var numModules: nat
    var revision: int
    var modules: seq<Module>
    var offline: seq<Module>
    var ready: bool
    var users: int
    /** The calls made into the module layer and the backplane, in order. */
    var calls: seq<Call>

    /** `operator[]` never indexes past the end of `modules`. */
    ghost predicate Valid()
      reads this
    {
      numModules <= |modules|
    }

    constructor ()
      ensures numModules == 0 && revision == -1 && !ready && users == 0
      ensures modules == [] && offline == [] && calls == []
      ensures Valid()
    {
      numModules, revision, ready, users := 0, -1, false, 0;
      modules, offline, calls := [], [], [];
    }

    /** `ready()`: throws `crate_not_ready` unless the crate is initialised. */
    function ReadyCheck(): (o: Outcome)
      reads this
      ensures o.Pass? <==> ready
      ensures o.Fail? ==> o.code == CrateNotReady
    {
      if ready then Pass else Fail(CrateNotReady)
    }

    /** `busy()`: some user holds the crate. */
    function Busy(): (b: bool)
      reads this
      ensures b <==> users > 0
    {
      users > 0
    }

    /**
     * `operator[]`: the module at `number`, or `module_number_invalid` when
     * `number` is not below `num_modules` (a negative number converts to a
     * huge `size_t` and fails the same check).
     */
    function Index(number: int): (r: Result<Module>)
      reads this
      requires Valid()
      ensures r.Ok? <==> 0 <= number < numModules
      ensures r.Ok? ==> r.value == modules[number]
      ensures r.Err? ==> r.code == ModuleNumberInvalid
    {
      if number < 0 || number >= numModules then Err(ModuleNumberInvalid) else Ok(modules[number])
    }

    /** `check_revision`: the crate revision from the present modules, online ones first. */
    method CheckRevision()
      modifies this`revision
      ensures revision == RevisionOf(modules + offline)
    {
      var all := modules + offline;
      revision := -1;
      var i := 0;
      while i < |all|
        invariant 0 <= i <= |all|
        invariant revision == RevisionOf(all[..i])
      {
        assert all[..i + 1][..i] == all[..i];
        if all[i].present {
          if revision < 0 {
            revision := all[i].crateRevision;
          }
        }
        i := i + 1;
      }
      assert all[..|all|] == all;
    }

    /** `check_slots`: finds the duplicate slots and repairs the revision 2 slot 5 clash. */
    method CheckSlots()
      modifies this`modules, this`offline
      ensures (modules, offline) == CheckSlotsOf(old(modules), old(offline), revision)
      ensures OnlySlotTo4(old(modules), modules) && OnlySlotTo4(old(offline), offline)
      ensures revision != 2 ==> modules == old(modules) && offline == old(offline)
    {
      ghost var spec := CheckSlotsOf(old(modules), old(offline), revision);
      var ms, os := modules, offline;
      var dups := FindDups(ms + os);
      var k := 0;
      while k < |dups|
        invariant 0 <= k <= |dups|
        invariant FixFrom(ms, os, dups, revision, k) == spec
      {
        var ms', os' := FixDupOf(ms, os, dups[k], revision);
        assert FixFrom(ms, os, dups, revision, k) == FixFrom(ms', os', dups, revision, k + 1);
        ms, os, k := ms', os', k + 1;
      }
      assert (ms, os) == spec;
      CheckSlotsOnlySlots(old(modules), old(offline), revision);
      modules, offline := ms, os;
    }

    /** One duplicate pair in the loop of `check_slots`. */
    static method FixDupOf(ms: seq<Module>, os: seq<Module>, dup: (Module, Module), revision: int)
      returns (ms': seq<Module>, os': seq<Module>)
      ensures (ms', os') == FixDup(ms, os, dup, revision)
    {
      ms', os' := ms, os;
      var mod1 := Lookup(ms + os, dup.0.id);
      var mod2 := Lookup(ms + os, dup.1.id);
      if mod1.Some? && mod2.Some? && revision == 2 {
        var m1, m2 := mod1.value, mod2.value;
        if m1.slot == 5 && m1.pciBus == m2.pciBus {
          if m1.pciSlot == 13 {
            ms', os' := SetSlot(ms, m1.id, 4), SetSlot(os, m1.id, 4);
          } else if m2.pciSlot == 13 {
            ms', os' := SetSlot(ms, m2.id, 4), SetSlot(os, m2.id, 4);
          }
        }
      }
    }

    /**
     * `initialize`: scans the devices, then settles the module count, the
     * crate revision and the slots. A second call throws
     * `crate_already_open`; an exception escaping the scan resets `ready`.
     */
    method Initialize(opens: seq<OpenResult>) returns (o: Outcome)
      requires |opens| == MaxSlots && Valid()
      modifies this
      ensures Valid() && users == old(users)
      ensures old(ready) ==> o == Fail(CrateAlreadyOpen) && unchanged(this)
      ensures !old(ready) ==>
        var s := ScanFrom(old(modules), old(offline), opens, 0);
        && (s.status.Fail? ==>
              && o == s.status && !ready && modules == s.modules && offline == s.offline
              && numModules == old(numModules) && revision == old(revision) && calls == old(calls))
        && (s.status.Pass? ==>
              && o == Pass && ready && numModules == |s.modules|
              && revision == RevisionOf(s.modules + s.offline)
              && (modules, offline) == CheckSlotsOf(s.modules, s.offline, revision)
              && calls == old(calls) + [BackplaneInit(|s.modules| + |s.offline|), SetNumberBySlot, OrderBySlot])
    {
      if ready {
        return Fail(CrateAlreadyOpen);
      }
      ready := true;
      var scanned := ScanDevices(opens);
      if scanned.Fail? {
        ready := false;
        return scanned;
      }
      numModules := |modules|;
      calls := calls + [BackplaneInit(|modules| + |offline|)];
      CheckRevision();
      CheckSlots();
      calls := calls + [SetNumberBySlot, OrderBySlot];
      o := Pass;
    }

    /**
     * The device loop of `initialize`: each device's module is added to
     * `modules` before its checks; a missing device is taken out again and
     * ends the scan, a module that is not present moves to `offline`.
     */
    method ScanDevices(opens: seq<OpenResult>) returns (status: Outcome)
      modifies this`modules, this`offline
      ensures var s := ScanFrom(old(modules), old(offline), opens, 0);
        modules == s.modules && offline == s.offline && status == s.status
    {
      var ms, os := modules, offline;
      var device := 0;
      while device < |opens|
        invariant 0 <= device <= |opens|
        invariant ScanFrom(ms, os, opens, device) == ScanFrom(old(modules), old(offline), opens, 0)
      {
        var result := opens[device];
        ms := ms + [result.m];
        if result.Escaped? {
          modules, offline := ms, os;
          return Fail(result.code);
        }
        if !result.m.devicePresent {
          ms := ms[..|ms| - 1];
          break;
        }
        if !result.m.present {
          os := os + [ms[|ms| - 1]];
          ms := ms[..|ms| - 1];
        }
        device := device + 1;
      }
      modules, offline := ms, os;
      status := Pass;
    }

    /**
     * `shutdown`: closes every module even when some close fails, clears
     * `modules` and the module count, and clears `ready`; the code raised
     * is the last failing close's.
     */
    method Shutdown(closeCodes: seq<Code>) returns (o: Outcome)
      requires |closeCodes| == |modules|
      modifies this
      ensures o == ToOutcome(LastFailure(closeCodes))
      ensures modules == [] && numModules == 0 && !ready && Valid()
      ensures offline == old(offline) && revision == old(revision) && users == old(users)
      ensures calls == old(calls) + CloseCalls(old(modules))
    {
      var failed := CloseAll(closeCodes);
      modules := [];
      numModules := 0;
      ready := false;
      o := ToOutcome(failed);
    }

    /**
     * `shutdown` as the source writes it: `num_modules` keeps its value, so
     * after shutting down a crate that had modules `operator[]` accepts
     * numbers for which `modules` holds nothing.
     */
    method ShutdownAsWritten(closeCodes: seq<Code>) returns (o: Outcome)
      requires |closeCodes| == |modules|
      modifies this
      ensures o == ToOutcome(LastFailure(closeCodes))
      ensures modules == [] && numModules == old(numModules) && !ready
      ensures offline == old(offline) && revision == old(revision) && users == old(users)
      ensures calls == old(calls) + CloseCalls(old(modules))
      ensures old(numModules) > 0 ==> !Valid() && 0 < numModules && |modules| == 0
    {
      var failed := CloseAll(closeCodes);
      modules := [];
      ready := false;
      o := ToOutcome(failed);
    }

    /** The close loop of `shutdown`: each failure overwrites the code held. */
    method CloseAll(closeCodes: seq<Code>) returns (failed: Code)
      requires |closeCodes| == |modules|
      modifies this`calls
      ensures failed == LastFailure(closeCodes)
      ensures calls == old(calls) + CloseCalls(modules)
    {
      failed := Success;
      var i := 0;
      while i < |modules|
        invariant 0 <= i <= |modules|
        invariant failed == LastFailure(closeCodes[..i])
        invariant calls == old(calls) + CloseCalls(modules[..i])
      {
        calls := calls + [Close(modules[i].id)];
        assert closeCodes[..i + 1][..i] == closeCodes[..i];
        if closeCodes[i] != Success {
          failed := closeCodes[i];
        }
        i := i + 1;
      }
      assert closeCodes[..i] == closeCodes;
      assert modules[..i] == modules;
    }

    /**
     * `set_offline(module_ptr)`: moves that module from `modules` to the end
     * of `offline`, keeping the order of the others, or throws
     * `module_not_found` when it is not online.
     */
    method SetOffline(id: nat) returns (o: Outcome)
      requires Valid()
      modifies this`modules, this`offline, this`numModules, this`calls
      ensures Valid()
      ensures IndexOfId(old(modules), id).None? ==>
        o == Fail(ModuleNotFound) && modules == old(modules) && offline == old(offline)
        && numModules == old(numModules) && calls == old(calls)
      ensures IndexOfId(old(modules), id).Some? ==>
        var k := IndexOfId(old(modules), id).value;
        && o == Pass && modules == RemoveAt(old(modules), k) && offline == old(offline) + [old(modules)[k]]
        && numModules == |modules| && calls == old(calls) + [ForceOffline(id)]
    {
      var i := 0;
      while i < |modules|
        invariant 0 <= i <= |modules|
        invariant forall j :: 0 <= j < i ==> modules[j].id != id
      {
        if modules[i].id == id {
          calls := calls + [ForceOffline(id)];
          offline := offline + [modules[i]];
          modules := RemoveAt(modules, i);
          numModules := |modules|;
          return Pass;
        }
        i := i + 1;
      }
      return Fail(ModuleNotFound);
    }

    /** `set_offline(int)`: range checks the number, then sets that module offline. */
    method SetOfflineNumber(number: int) returns (o: Outcome)
      requires Valid()
      modifies this`modules, this`offline, this`numModules, this`calls
      ensures Valid()
      ensures o.Pass? <==> 0 <= number < old(numModules)
      ensures !(0 <= number < old(numModules)) ==>
        o == Fail(ModuleNumberInvalid) && modules == old(modules) && offline == old(offline)
        && numModules == old(numModules) && calls == old(calls)
      ensures 0 <= number < old(numModules) ==>
        var k := IndexOfId(old(modules), old(modules)[number].id).value;
        && k <= number && modules == RemoveAt(old(modules), k) && offline == old(offline) + [old(modules)[k]]
        && numModules == |modules| && calls == old(calls) + [ForceOffline(old(modules)[number].id)]
    {
      var r := Index(number);
      if r.Err? {
        return Fail(r.code);
      }
      o := SetOffline(r.value.id);
    }

    /**
     * `probe`: probes every module in turn, then answers whether as many
     * modules are online as `num_modules` counts. A probe that throws ends
     * the loop with the error.
     */
    method Probe(results: seq<ProbeResult>) returns (r: Result<bool>)
      requires |results| == |modules|
      modifies this`modules, this`calls
      ensures !ready ==> r == Err(CrateNotReady) && modules == old(modules) && calls == old(calls)
      ensures ready ==> match FirstProbeFailure(results)
        case Some(k) =>
          && r == Err(results[k].code) && modules == ProbedFirst(old(modules), results, k)
          && calls == old(calls) + ProbeCalls(old(modules)[..k + 1])
        case None =>
          && modules == ProbedFirst(old(modules), results, |results|)
          && r == Ok(|Keep(modules, Online, true)| == numModules)
          && calls == old(calls) + ProbeCalls(old(modules)) + [BackplaneReinit]
    {
      if !ready {
        return Err(CrateNotReady);
      }
      var failed, online := ProbeEach(results);
      if failed.Some? {
        return Err(results[failed.value].code);
      }
      calls := calls + [BackplaneReinit];
      r := Ok(online == numModules);
    }

    /**
     * The module loop of `probe`: each module in order is probed and takes
     * the flags its probe leaves, until the first probe that throws.
     */
    method ProbeEach(results: seq<ProbeResult>) returns (failed: Option<nat>, online: nat)
      requires |results| == |modules|
      modifies this`modules, this`calls
      ensures failed == FirstProbeFailure(results)
      ensures failed.Some? ==>
        && modules == ProbedFirst(old(modules), results, failed.value)
        && calls == old(calls) + ProbeCalls(old(modules)[..failed.value + 1])
      ensures failed.None? ==>
        && modules == ProbedFirst(old(modules), results, |results|)
        && online == |Keep(modules, Online, true)|
        && calls == old(calls) + ProbeCalls(old(modules))
    {
      var ms0, cs0 := modules, calls;
      var ms := ms0;
      online := 0;
      var i := 0;
      while i < |ms|
        invariant 0 <= i <= |ms| == |ms0|
        invariant forall j :: 0 <= j < i ==> results[j].Probed?
        invariant ms == ProbedFirst(ms0, results, i)
        invariant online == |Keep(ms[..i], Online, true)|
      {
        if results[i].ProbeFailed? {
          FirstProbeFailureAt(results, i);
          ProbeCallsStep(ms0, i);
          modules, calls := ms, cs0 + ProbeCalls(ms0[..i + 1]);
          return Some(i), online;
        }
        ProbeStep(ms0, results, i);
        var probed := ms[i].(present := results[i].present, online := results[i].online);
        ms := ms[i := probed];
        if probed.online {
          online := online + 1;
        }
        i := i + 1;
      }
      assert ms[..i] == ms;
      FirstProbeFailureAt(results, i);
      modules, calls := ms, cs0 + ProbeCalls(ms0);
      failed := None;
    }

    /**
     * `boot`: checks the requested numbers (before the ready check), then
     * boots every requested module that is not skipped, and raises the
     * first failure in launch order; the backplane is reinitialised only
     * when every boot passed.
     */
    method Boot(params: BootParams, bootCodes: seq<Code>) returns (o: Outcome)
      requires |bootCodes| == |modules|
      requires BootNumbers(|modules|, params.modules).Ok? ==>
        Distinct(Launched(modules, BootNumbers(|modules|, params.modules).value, params.force))
      modifies this`calls
      ensures o == BootOf(modules, ready, params, bootCodes)
      ensures BootNumbers(|modules|, params.modules).Err? || !ready ==> calls == old(calls)
      ensures BootNumbers(|modules|, params.modules).Ok? && ready ==>
        var launched := Launched(modules, BootNumbers(|modules|, params.modules).value, params.force);
        calls == old(calls) + BootCalls(modules, launched, params) + (if o.Pass? then [BackplaneReinit] else [])
    {
      var numbers := CheckNumbers(params.modules);
      if numbers.Err? {
        return Fail(numbers.code);
      }
      if !ready {
        return Fail(CrateNotReady);
      }
      var codes := LaunchBoots(numbers.value, params, bootCodes);
      var firstError := JoinFirst(codes);
      if firstError != Success {
        return Fail(firstError);
      }
      calls := calls + [BackplaneReinit];
      o := Pass;
    }

    /** The number check of `boot`: an empty list means every module, and any number out of range fails. */
    method CheckNumbers(requested: seq<nat>) returns (r: Result<seq<nat>>)
      ensures r == BootNumbers(|modules|, requested)
    {
      if requested == [] {
        return Ok(AllNumbers(|modules|));
      }
      var k := 0;
      while k < |requested|
        invariant 0 <= k <= |requested|
        invariant forall j :: 0 <= j < k ==> requested[j] < |modules|
      {
        if requested[k] >= |modules| {
          return Err(ModuleNumberInvalid);
        }
        k := k + 1;
      }
      r := Ok(requested);
    }

    /** The launch loop of `boot`: each module not skipped is booted, in the order requested. */
    method LaunchBoots(nums: seq<nat>, params: BootParams, bootCodes: seq<Code>) returns (codes: seq<Code>)
      requires |bootCodes| == |modules| && forall k :: 0 <= k < |nums| ==> nums[k] < |modules|
      modifies this`calls
      ensures codes == CodesOf(bootCodes, Launched(modules, nums, params.force))
      ensures calls == old(calls) + BootCalls(modules, Launched(modules, nums, params.force), params)
    {
      var launched: seq<nat> := [];
      codes := [];
      var t := 0;
      while t < |nums|
        invariant 0 <= t <= |nums|
        invariant launched == Launched(modules, nums[..t], params.force)
        invariant codes == CodesOf(bootCodes, launched)
        invariant calls == old(calls) + BootCalls(modules, launched, params)
      {
        assert nums[..t + 1][..t] == nums[..t];
        var n := nums[t];
        var m := modules[n];
        if !(m.revision == 0 || (!params.force && m.online)) {
          launched := launched + [n];
          codes := codes + [bootCodes[n]];
          calls := calls + [Call.Boot(m.id, params.bootComms, params.bootFippi, params.bootDsp)];
        }
        t := t + 1;
      }
      assert nums[..t] == nums;
    }

    /**
     * `initialize_afe`: synchronises every online module with the hardware
     * and raises the first failure in launch order.
     */
    method InitializeAfe(syncCodes: seq<Code>) returns (o: Outcome)
      requires |syncCodes| == |modules|
      modifies this`calls
      ensures o == InitializeAfeOf(modules, ready, syncCodes)
      ensures !ready ==> calls == old(calls)
      ensures ready ==> calls == old(calls) + SyncCalls(modules, OnlineNumbers(modules, |modules|))
    {
      if !ready {
        return Fail(CrateNotReady);
      }
      var launched: seq<nat> := [];
      var codes: seq<Code> := [];
      var m := 0;
      while m < |modules|
        invariant 0 <= m <= |modules|
        invariant launched == OnlineNumbers(modules, m)
        invariant codes == CodesOf(syncCodes, launched)
        invariant calls == old(calls) + SyncCalls(modules, launched)
      {
        if modules[m].online {
          launched := launched + [m];
          codes := codes + [syncCodes[m]];
          calls := calls + [SyncHw(modules[m].id)];
        }
        m := m + 1;
      }
      var firstError := JoinFirst(codes);
      o := ToOutcome(firstError);
    }

    /**
     * `move_offlines`: every module that is not online moves to the end of
     * `offline`, in order; `modules` keeps the online ones in order.
     */
    method MoveOfflines()
      modifies this`modules, this`offline, this`numModules, this`calls
      ensures modules == Keep(old(modules), Online, true)
      ensures offline == old(offline) + Keep(old(modules), Online, false)
      ensures numModules == |modules| && Valid()
      ensures forall i :: 0 <= i < |modules| ==> modules[i].online
      ensures |modules| + |offline| == |old(modules)| + |old(offline)|
      ensures calls == old(calls) + OfflineCalls(Keep(old(modules), Online, false))
    {
      var haveMoved := true;
      while haveMoved
        invariant Keep(modules, Online, true) == Keep(old(modules), Online, true)
        invariant offline + Keep(modules, Online, false) == old(offline) + Keep(old(modules), Online, false)
        invariant calls + OfflineCalls(Keep(modules, Online, false))
                  == old(calls) + OfflineCalls(Keep(old(modules), Online, false))
        invariant !haveMoved ==> forall j :: 0 <= j < |modules| ==> modules[j].online
        decreases |modules| + (if haveMoved then 1 else 0)
      {
        var found := FirstOffline(modules);
        haveMoved := found.Some?;
        if found.Some? {
          var i := found.value;
          MoveOneOffline(modules, offline, calls, i);
          calls := calls + [BackplaneOffline(modules[i].id)];
          offline := offline + [modules[i]];
          modules := RemoveAt(modules, i);
        }
      }
      KeepEvery(modules, Online, true);
      KeepPartition(old(modules), Online);
      numModules := |modules|;
    }

    /** The scan of `move_offlines`' inner loop: the first module that is not online. */
    static method FirstOffline(ms: seq<Module>) returns (r: Option<nat>)
      ensures r == FirstFailing(ms, Online)
    {
      var i := 0;
      while i < |ms|
        invariant 0 <= i <= |ms|
        invariant forall j :: 0 <= j < i ==> ms[j].online
      {
        if !ms[i].online {
          return Some(i);
        }
        i := i + 1;
      }
      return None;
    }

    /**
     * `assign`: numbers the modules as `module::assign` does, then closes
     * (when `close`) or sets offline every module left unnumbered. Any error
     * leaves the module count matching `modules` and the numbering reset by
     * slot.
     */
    method Assign(numbering: Result<seq<int>>, close: bool, closeCodes: map<nat, Code>) returns (o: Outcome)
      requires Valid() && (numbering.Ok? ==> |numbering.value| == |modules|)
      modifies this`modules, this`offline, this`numModules, this`calls
      ensures Valid()
      ensures !ready ==> o == Fail(CrateNotReady) && unchanged(this)
      ensures ready && numbering.Err? ==>
        && o == Fail(numbering.code) && modules == old(modules) && offline == old(offline)
        && numModules == |modules| && calls == old(calls) + [AssignNumbers, SetNumberBySlot]
      ensures ready && numbering.Ok? ==>
        var u := UnassignFrom(Renumber(old(modules), numbering.value), old(offline), [], close, closeCodes);
        && modules == u.modules && offline == u.offline && numModules == |modules|
        && (u.status.Pass? ==> o == Pass && calls == old(calls) + [AssignNumbers] + u.calls + [OrderByNumber, BackplaneReinit])
        && (u.status.Fail? ==> o == u.status && calls == old(calls) + [AssignNumbers] + u.calls + [SetNumberBySlot])
    {
      if !ready {
        return Fail(CrateNotReady);
      }
      calls := calls + [AssignNumbers];
      if numbering.Err? {
        numModules := |modules|;
        calls := calls + [SetNumberBySlot];
        return Fail(numbering.code);
      }
      o := AssignNumbered(numbering.value, close, closeCodes);
    }

    /** `assign` once `module::assign` has given every module its number. */
    method AssignNumbered(numbers: seq<int>, close: bool, closeCodes: map<nat, Code>) returns (o: Outcome)
      requires |numbers| == |modules|
      modifies this`modules, this`offline, this`numModules, this`calls
      ensures var u := UnassignFrom(Renumber(old(modules), numbers), old(offline), [], close, closeCodes);
        && modules == u.modules && offline == u.offline && numModules == |modules|
        && (u.status.Pass? ==> o == Pass && calls == old(calls) + u.calls + [OrderByNumber, BackplaneReinit])
        && (u.status.Fail? ==> o == u.status && calls == old(calls) + u.calls + [SetNumberBySlot])
    {
      modules := Renumber(modules, numbers);
      var status := DropUnassigned(close, closeCodes);
      numModules := |modules|;
      if status.Fail? {
        calls := calls + [SetNumberBySlot];
        return status;
      }
      calls := calls + [OrderByNumber, BackplaneReinit];
      o := Pass;
    }

    /**
     * The restart loop of `assign`: the first module numbered -1 is closed
     * and erased, or set offline (the identity search of `set_offline` finds
     * that very entry), until none is left or a close throws.
     */
    method DropUnassigned(close: bool, closeCodes: map<nat, Code>) returns (status: Outcome)
      modifies this`modules, this`offline, this`calls
      ensures var u := UnassignFrom(old(modules), old(offline), [], close, closeCodes);
        modules == u.modules && offline == u.offline && status == u.status && calls == old(calls) + u.calls
    {
      ghost var trace: seq<Call> := [];
      var unassigned := true;
      while unassigned
        invariant UnassignFrom(modules, offline, trace, close, closeCodes)
                  == UnassignFrom(old(modules), old(offline), [], close, closeCodes)
        invariant calls == old(calls) + trace
        invariant !unassigned ==> FirstFailing(modules, Assigned).None?
        decreases |modules| + (if unassigned then 1 else 0)
      {
        unassigned := false;
        var i := 0;
        while i < |modules|
          invariant 0 <= i <= |modules|
          invariant forall j :: 0 <= j < i ==> modules[j].number != -1
        {
          var m := modules[i];
          if m.number == -1 {
            assert FirstFailing(modules, Assigned) == Some(i);
            if close {
              calls := calls + [Close(m.id)];
              trace := trace + [Close(m.id)];
              var c := if m.id in closeCodes then closeCodes[m.id] else Success;
              if c != Success {
                return Fail(c);
              }
              modules := RemoveAt(modules, i);
            } else {
              calls := calls + [ForceOffline(m.id)];
              trace := trace + [ForceOffline(m.id)];
              offline := offline + [m];
              modules := RemoveAt(modules, i);
            }
            unassigned := true;
            break;
          }
          i := i + 1;
        }
      }
      status := Pass;
    }

    /**
     * `module_handle`'s constructor: looks the module up (an invalid number
     * throws before the crate gains a user), registers a user, then checks
     * the crate is ready and the module's state; a failed check unwinds the
     * user, so the count is one higher exactly while a handle exists.
     */
    method OpenHandle(number: int, check: Check) returns (r: Result<Module>)
      requires Valid()
      modifies this`users
      ensures !(0 <= number < numModules) ==> r == Err(ModuleNumberInvalid) && users == old(users)
      ensures 0 <= number < numModules ==> r == HandleChecks(ready, modules[number], check)
      ensures users == old(users) + (if r.Ok? then 1 else 0)
    {
      var handle :- Index(number);
      users := users + 1;
      if !ready {
        users := users - 1;
        return Err(CrateNotReady);
      }
      match check {
        case CheckOnline =>
          if !handle.online {
            users := users - 1;
            return Err(ModuleOffline);
          }
        case CheckPresent =>
          if !handle.present {
            users := users - 1;
            return Err(ModuleOffline);
          }
        case CheckNone =>
      }
      r := Ok(handle);
    }

    /** `module_handle`'s destructor: the `user` member gives the crate back. */
    method CloseHandle()
      modifies this`users
      ensures users == old(users) - 1
    {
      users := users - 1;
    }

    /** The join loop of `boot` and `initialize_afe`: the held code is replaced only while it is success. */
    static method JoinFirst(codes: seq<Code>) returns (first: Code)
      ensures first == FirstFailure(codes)
    {
      first := Success;
      var t := 0;
      while t < |codes|
        invariant 0 <= t <= |codes|
        invariant first == FirstFailure(codes[..t])
      {
        assert codes[..t + 1][..t] == codes[..t];
        if first == Success {
          first := codes[t];
        }
        t := t + 1;
      }
      assert codes[..t] == codes;
    }
  }

  /** The checks of a `module_handle`, in the order its constructor makes them. */
  function HandleChecks(ready: bool, m: Module, check: Check): (r: Result<Module>)
    ensures r.Ok? <==> ready && (check == CheckOnline ==> m.online) && (check == CheckPresent ==> m.present)
    ensures r.Ok? ==> r.value == m
    ensures r.Err? ==> r.code == if !ready then CrateNotReady else ModuleOffline
  {
    if !ready then Err(CrateNotReady)
    else if check == CheckOnline && !m.online then Err(ModuleOffline)
    else if check == CheckPresent && !m.present then Err(ModuleOffline)
    else Ok(m)
  }

  /** One step of `move_offlines`' restart loop keeps its invariants. */
  lemma MoveOneOffline(ms: seq<Module>, os: seq<Module>, calls: seq<Call>, i: nat)
    requires i < |ms| && !ms[i].online && forall j :: 0 <= j < i ==> ms[j].online
    ensures Keep(RemoveAt(ms, i), Online, true) == Keep(ms, Online, true)
    ensures (os + [ms[i]]) + Keep(RemoveAt(ms, i), Online, false) == os + Keep(ms, Online, false)
    ensures (calls + [BackplaneOffline(ms[i].id)]) + OfflineCalls(Keep(RemoveAt(ms, i), Online, false))
            == calls + OfflineCalls(Keep(ms, Online, false))
  {
    RemoveFirstFailing(ms, i, Online);
    var rest := Keep(RemoveAt(ms, i), Online, false);
    AppendShift(os, ms[i], rest, Keep(ms, Online, false));
    OfflineCallsCons(ms[i], rest);
    CallsShift(calls, BackplaneOffline(ms[i].id), OfflineCalls(rest), OfflineCalls(Keep(ms, Online, false)));
  }

  lemma AppendShift(os: seq<Module>, m: Module, rest: seq<Module>, all: seq<Module>)
    requires all == [m] + rest
    ensures (os + [m]) + rest == os + all
  {
  }

  lemma CallsShift(calls: seq<Call>, c: Call, rest: seq<Call>, all: seq<Call>)
    requires all == [c] + rest
    ensures (calls + [c]) + rest == calls + all
  {
  }

  lemma OfflineCallsCons(m: Module, rest: seq<Module>)
    ensures OfflineCalls([m] + rest) == [BackplaneOffline(m.id)] + OfflineCalls(rest)
  {
  }

  /** Probing module `i` extends the probed prefix by one module and the online count by its flag. */
  lemma ProbeStep(ms: seq<Module>, results: seq<ProbeResult>, i: nat)
    requires i < |ms| == |results| && results[i].Probed?
    ensures ProbedFirst(ms, results, i)[i := ProbeApply(ms[i], results[i])] == ProbedFirst(ms, results, i + 1)
    ensures |Keep(ProbedFirst(ms, results, i + 1)[..i + 1], Online, true)|
            == |Keep(ProbedFirst(ms, results, i)[..i], Online, true)| + (if results[i].online then 1 else 0)
  {
    var before, after := ProbedFirst(ms, results, i), ProbedFirst(ms, results, i + 1);
    assert after[..i + 1] == before[..i] + [after[i]];
    KeepAppend(before[..i], [after[i]], Online, true);
  }

  lemma FirstProbeFailureAt(results: seq<ProbeResult>, i: nat)
    requires i <= |results| && forall j :: 0 <= j < i ==> results[j].Probed?
    ensures i < |results| && results[i].ProbeFailed? ==> FirstProbeFailure(results) == Some(i)
    ensures i == |results| ==> FirstProbeFailure(results) == None
  {
  }

  lemma ProbeCallsStep(ms: seq<Module>, i: nat)
    requires i < |ms|
    ensures ProbeCalls(ms[..i + 1]) == ProbeCalls(ms[..i]) + [Probe(ms[i].id)]
  {
  }
}
