/**
 The application-wide cache of precomputed tables (rust/src/api/wallet/runtime/table_cache.rs): one shared cell that
 every wallet holds, upgraded in place.  A loader returns an unshared table of the requested size.
 */
module TableCache {
  import opened Common

  /** Arc<RwLock<T>>: the table behind the lock, by its size, and the strong count. */
  class SharedTable {
    var size: nat
    var strong: nat

    constructor (size: nat)
      ensures this.size == size && strong == 1
    {
      this.size, strong := size, 1;
    }
  }

  /** A wallet's clone of the handle, and what it asked for. */
  datatype Holder = Holder(table: SharedTable, requested: nat, alive: bool)

  datatype CacheError = AlreadyFinalized | UnexpectedlyShared | LoadFailed

  function Living(holders: seq<Holder>): nat {
    if holders == [] then 0 else Living(holders[..|holders| - 1]) + if holders[|holders| - 1].alive then 1 else 0
  }

  lemma {:induction false} LivingSnoc(holders: seq<Holder>, h: Holder)
    ensures Living(holders + [h]) == Living(holders) + if h.alive then 1 else 0
  {
    assert (holders + [h])[..|holders|] == holders;
  }

  lemma {:induction false} LivingDrop(holders: seq<Holder>, i: nat)
    requires i < |holders| && holders[i].alive
    ensures Living(holders[i := holders[i].(alive := false)]) == Living(holders) - 1
  {
    var n := |holders| - 1;
    var after := holders[i := holders[i].(alive := false)];
    if i < n {
      LivingDrop(holders[..n], i);
      assert after[..n] == holders[..n][i := holders[i].(alive := false)];
    } else {
      assert after[..n] == holders[..n];
    }
  }

  lemma {:induction false} NoneLiving(holders: seq<Holder>, i: nat)
    requires Living(holders) == 0 && i < |holders|
    ensures !holders[i].alive
  {
    var n := |holders| - 1;
    if i < n {
      NoneLiving(holders[..n], i);
      assert holders[..n][i] == holders[i];
    }
  }

  /** What other tasks do: a request served from memory, a table loaded and installed, a clear, a wallet closed. */
  datatype Op = Get(requested: nat) | Materialize(requested: nat) | Clear | Release(holder: nat)

  class PrecomputedTablesCache {
    const low: nat          // L1_LOW
    var entry: SharedTable?
    var l1Size: nat
    var holders: seq<Holder>
    var upgrades: nat       // of the present entry

    /**
     Everyone alive shares the cached handle, the table behind it has the recorded size, and that is at least what each
     of them asked for; the strong count is exact; an entry is upgraded once at most and never at the low size again.
     */
    ghost predicate Valid()
      reads this, entry
    {
      && (entry == null ==> Living(holders) == 0)
      && (entry != null ==>
            && entry.size == l1Size
            && entry.strong == 1 + Living(holders)
            && (upgrades > 0 ==> upgrades == 1 && l1Size > low))
      && (forall i :: 0 <= i < |holders| && holders[i].alive ==> holders[i].table == entry && holders[i].requested <= l1Size)
    }

    /** Nothing is lost between two states: whoever is still alive kept its handle, whose table did not shrink. */
    twostate predicate Kept()
      reads this, entry
    {
      && |old(holders)| <= |holders|
      && (forall i :: 0 <= i < |old(holders)| ==>
            && holders[i].table == old(holders)[i].table && holders[i].requested == old(holders)[i].requested
            && (holders[i].alive ==> old(holders)[i].alive))
      && ((exists i :: 0 <= i < |old(holders)| && holders[i].alive) ==> entry == old(entry) && l1Size >= old(l1Size))
    }

    constructor (low: nat)
      ensures Valid() && entry == null && holders == [] && this.low == low
    {
      this.low, entry, l1Size, holders, upgrades := low, null, 0, [], 0;
    }

    /** The recorded size, if there is an entry. */
    function Size(): Option<nat>
      reads this
    {
      if entry == null then None else Some(l1Size)
    }

    /** Arc::clone for a caller. */
    method Share(requested: nat) returns (table: SharedTable)
      requires Valid() && entry != null && requested <= l1Size
      modifies this`holders, entry
      ensures Valid() && table == entry && entry.size == old(entry.size)
      ensures holders == old(holders) + [Holder(table, requested, true)]
    {
      table := entry;
      entry.strong := entry.strong + 1;
      LivingSnoc(holders, Holder(table, requested, true));
      holders := holders + [Holder(table, requested, true)];
    }

    method GetOrRequireLoad(requested: nat) returns (r: Result<Option<SharedTable>, CacheError>)
      requires Valid()
      modifies this`holders, entry
      ensures Valid() && Kept() && (entry != null ==> entry.size == old(entry.size))
      ensures entry == null ==> r == Success(None)
      ensures entry != null && l1Size >= requested ==>
                r == Success(Some(entry)) && holders == old(holders) + [Holder(entry, requested, true)]
      ensures entry != null && l1Size < requested ==> r == if l1Size == low then Success(None) else Failure(AlreadyFinalized)
      ensures r != Success(Some(entry)) ==> holders == old(holders)
    {
      if entry == null {
        return Success(None);
      }
      if l1Size >= requested {
        var table := Share(requested);
        return Success(Some(table));
      }
      if l1Size == low {
        return Success(None);
      }
      return Failure(AlreadyFinalized);
    }

    /** The loaded table becomes the entry, or gives way to a large enough one, or replaces the low table in place. */
    method Install(requested: nat, loaded: SharedTable) returns (r: Result<SharedTable, CacheError>)
      requires Valid() && loaded.size == requested && loaded.strong == 1 && loaded != entry
      modifies this, entry, loaded
      ensures Valid() && Kept()
      ensures r.Failure? <==> old(entry) != null && old(l1Size) < requested && old(l1Size) != low
      ensures r.Failure? ==>
                r.error == AlreadyFinalized && entry == old(entry) && l1Size == old(l1Size) && holders == old(holders)
      ensures r.Success? ==> r.value == entry && l1Size >= requested && holders == old(holders) + [Holder(entry, requested, true)]
      ensures old(entry) == null ==> entry == loaded && l1Size == requested && upgrades == 0
      ensures old(entry) != null ==> entry == old(entry)
      ensures old(entry) != null && r.Success? ==> l1Size == if old(l1Size) >= requested then old(l1Size) else requested
      ensures old(entry) != null ==> upgrades == old(upgrades) + if r.Success? && old(l1Size) < requested then 1 else 0
      ensures upgrades > old(upgrades) && old(entry) != null ==> old(l1Size) == low && old(upgrades) == 0
    {
      if entry == null {
        forall i | 0 <= i < |holders| ensures !holders[i].alive {
          NoneLiving(holders, i);
        }
        entry, l1Size, upgrades := loaded, requested, 0;
        var table := Share(requested);
        return Success(table);
      }
      if l1Size >= requested {
        var table := Share(requested);
        return Success(table);
      }
      if l1Size != low {
        return Failure(AlreadyFinalized);
      }
      if loaded.strong != 1 {
        assert false;   // the source's unexpectedly-shared error
      }
      entry.size := loaded.size;
      l1Size, upgrades := requested, upgrades + 1;
      var table := Share(requested);
      return Success(table);
    }

    /** Refused exactly while a wallet holds the tables. */
    method ClearIfUnused() returns (cleared: bool)
      requires Valid()
      modifies this
      ensures Valid() && Kept() && holders == old(holders)
      ensures cleared <==> Living(old(holders)) == 0
      ensures cleared ==> entry == null
      ensures !cleared ==> entry == old(entry) && l1Size == old(l1Size)
    {
      if entry != null && entry.strong > 1 {
        return false;
      }
      forall i | 0 <= i < |holders| ensures !holders[i].alive {
        NoneLiving(holders, i);
      }
      entry := null;
      return true;
    }

    /** A wallet drops its handle. */
    method ReleaseHolder(i: nat)
      requires Valid() && i < |holders| && holders[i].alive
      modifies this`holders, entry
      ensures Valid() && Kept() && (entry != null ==> entry.size == old(entry.size))
      ensures holders == old(holders)[i := old(holders)[i].(alive := false)]
    {
      LivingDrop(holders, i);
      entry.strong := entry.strong - 1;
      holders := holders[i := holders[i].(alive := false)];
    }

    method LoadAndInstall(requested: nat) returns (r: Result<SharedTable, CacheError>)
      requires Valid()
      modifies this, entry
      ensures Valid() && Kept()
      ensures entry == old(entry) || fresh(entry)
      ensures r.Failure? <==> old(entry) != null && old(l1Size) < requested && old(l1Size) != low
      ensures r.Failure? ==> r.error == AlreadyFinalized
      ensures r.Success? ==> r.value == entry && l1Size >= requested && holders == old(holders) + [Holder(entry, requested, true)]
    {
      var loaded := new SharedTable(requested);
      r := Install(requested, loaded);
    }

    method UseOnce(op: Op)
      requires Valid()
      modifies this, entry
      ensures Valid() && Kept()
      ensures entry == null || entry == old(entry) || fresh(entry)
    {
      match op {
        case Get(requested) => var _ := GetOrRequireLoad(requested);
        case Materialize(requested) => var _ := LoadAndInstall(requested);
        case Clear => var _ := ClearIfUnused();
        case Release(i) =>
          if i < |holders| && holders[i].alive {
            ReleaseHolder(i);
          }
      }
    }

    /** Any mix of operations, in any order. */
    method Use(ops: seq<Op>)
      requires Valid()
      modifies this, entry
      ensures Valid() && Kept()
      ensures entry == null || entry == old(entry) || fresh(entry)
      ensures ops == [] ==> Size() == old(Size())
    {
      var i := 0;
      while i < |ops|
        invariant 0 <= i <= |ops|
        invariant ops == [] ==> Size() == old(Size())
        invariant Valid() && Kept()
        invariant entry == null || entry == old(entry) || fresh(entry)
      {
        UseOnce(ops[i]);
        i := i + 1;
      }
    }

    /** The part of a request made under the load lock; `installed` is what it found there once it had loaded. */
    method LoadUnderLock(requested: nat, reuse: bool, loading: seq<Op>, loads: bool)
      returns (r: Result<SharedTable, CacheError>, ghost installed: Option<nat>)
      requires Valid()
      modifies this, entry
      ensures Valid() && Kept()
      ensures entry == null || entry == old(entry) || fresh(entry)
      ensures r.Success? ==> r.value == entry && l1Size >= requested
      ensures r.Success? ==> |holders| > |old(holders)| && holders[|holders| - 1] == Holder(entry, requested, true)
      ensures loading == [] ==> installed == old(Size())
      ensures r.Success? <==>
              if reuse && Serves(old(Size()), requested) then true
              else loads && !Blocks(low, installed, requested) && !(reuse && Blocks(low, old(Size()), requested))
      ensures r == Failure(LoadFailed) <==>
              !loads && !(reuse && (Serves(old(Size()), requested) || Blocks(low, old(Size()), requested)))
      ensures r.Failure? ==> r.error == LoadFailed || r.error == AlreadyFinalized
    {
      installed := Size();
      if reuse {
        var cached := GetOrRequireLoad(requested);
        if cached.Failure? {
          r := Failure(cached.error);
          return;
        }
        if cached.value.Some? {
          r := Success(cached.value.value);
          return;
        }
      }
      Use(loading);
      installed := Size();
      if !loads {
        r := Failure(LoadFailed);
        return;
      }
      r := LoadAndInstall(requested);
    }

    /**
     get_or_load_precomputed_tables_with_policy, with other tasks at work while it waits for the lock and while it loads;
     `loads` says whether the loader succeeds, `found` and `installed` which sizes it met under the lock.  It succeeds
     exactly when it is served from memory, or the loader succeeds and no size but the low one fell short on the way.
     */
    method GetOrLoad(requested: nat, reuse: bool, waiting: seq<Op>, loading: seq<Op>, loads: bool)
      returns (r: Result<SharedTable, CacheError>, ghost found: Option<nat>, ghost installed: Option<nat>)
      requires Valid()
      modifies this, entry
      ensures Valid() && Kept()
      ensures entry == null || entry == old(entry) || fresh(entry)
      ensures r.Success? ==> r.value == entry && l1Size >= requested
      ensures r.Success? ==> |holders| > |old(holders)| && holders[|holders| - 1] == Holder(entry, requested, true)
      ensures waiting == [] ==> found == old(Size())
      ensures loading == [] ==> installed == found
      ensures r == Failure(AlreadyFinalized) <==>
              || (reuse && Blocks(low, old(Size()), requested))
              || (reuse && !Serves(old(Size()), requested) && Blocks(low, found, requested))
              || (loads && Loads(low, reuse, old(Size()), found, requested) && Blocks(low, installed, requested))
      ensures r == Failure(LoadFailed) <==> !loads && Loads(low, reuse, old(Size()), found, requested)
      ensures r.Failure? ==> r.error == AlreadyFinalized || r.error == LoadFailed
    {
      found, installed := Size(), Size();
      if reuse {
        var cached := GetOrRequireLoad(requested);
        if cached.Failure? {
          r := Failure(cached.error);
          return;
        }
        if cached.value.Some? {
          r := Success(cached.value.value);
          return;
        }
      }
      Use(waiting);
      found := Size();
      r, installed := LoadUnderLock(requested, reuse, loading, loads);
    }
  }

  /** A cached size that answers the request. */
  predicate Serves(size: Option<nat>, requested: nat) {
    size.Some? && size.value >= requested
  }

  /** A cached size that is too small and can no longer be upgraded. */
  predicate Blocks(low: nat, size: Option<nat>, requested: nat) {
    size.Some? && size.value < requested && size.value != low
  }

  /** The loader is run: nothing in memory had to be, or could be, the answer. */
  predicate Loads(low: nat, reuse: bool, first: Option<nat>, found: Option<nat>, requested: nat) {
    reuse ==>
      && !Serves(first, requested) && !Blocks(low, first, requested)
      && !Serves(found, requested) && !Blocks(low, found, requested)
  }
}
