/**
 * The cache as the source keeps it: a map and a flag at module level, changed in place. Each method is
 * proved against the operation of the same kind in CreditCache.
 */
module CreditCacheCode {
  import opened Integers
  import opened Options
  import opened OrderedMaps
  import opened CreditCache

  class CreditBalances {
    var creditBalanceCache: Entries
    var creditCacheHydrated: bool

    constructor ()
      ensures Valid() && View() == INITIAL
    {
      creditBalanceCache, creditCacheHydrated := Empty<string, Entry>(), false;
    }

    function View(): Cache
      reads this
    {
      Cache(creditBalanceCache, creditCacheHydrated)
    }

    ghost predicate Valid()
      reads this
    {
      creditBalanceCache.Valid()
    }

    /** `hydrateCreditCacheFromDb`; a failing database has nothing to load. */
    method HydrateFromDb(persisted: seq<Loaded>)
      requires Valid()
      modifies this
      ensures Valid() && View() == Hydrate(old(View()), persisted)
    {
      LoadAllMeans(creditBalanceCache, persisted);
      if creditCacheHydrated {
        return;
      }
      creditCacheHydrated := true;
      for i := 0 to |persisted|
        invariant View() == Cache(LoadAll(old(creditBalanceCache), persisted[..i]), true)
      {
        assert persisted[..i + 1][..i] == persisted[..i];
        if persisted[i].account !in creditBalanceCache.table {
          creditBalanceCache :=
            creditBalanceCache.Set(persisted[i].account, Entry(persisted[i].balance, persisted[i].at));
        }
      }
      assert persisted[..|persisted|] == persisted;
    }

    method EvictStale(now: int)
      requires Valid()
      modifies this
      ensures Valid() && View() == Step(old(View()), Sweep(now)).0
    {
      SweepMeans(creditBalanceCache, now);
      var keys := creditBalanceCache.order;
      for i := 0 to |keys|
        invariant creditBalanceCache == DropStale(old(creditBalanceCache), keys[..i], now)
        invariant creditCacheHydrated == old(creditCacheHydrated)
      {
        assert keys[..i + 1][..i] == keys[..i];
        if keys[i] in creditBalanceCache.table && Stale(creditBalanceCache.table[keys[i]], now) {
          creditBalanceCache := creditBalanceCache.Delete(keys[i]);
        }
      }
      assert keys[..|keys|] == keys;
      while |creditBalanceCache.order| > MAX_ENTRIES
        invariant DropExcess(creditBalanceCache) == Evict(old(creditBalanceCache), now)
        invariant creditCacheHydrated == old(creditCacheHydrated)
        decreases |creditBalanceCache.order|
      {
        WithoutShorter(creditBalanceCache.order);
        creditBalanceCache := creditBalanceCache.Delete(creditBalanceCache.order[0]);
      }
    }

    method GetRemainingCredits(account: string, persisted: seq<Loaded>, now: int) returns (r: Option<real>)
      requires Valid()
      modifies this
      ensures Valid() && (View(), r) == Step(old(View()), Read(account, persisted, now))
    {
      HydrateFromDb(persisted);
      LookupFaithful(creditBalanceCache, account, now);
      if account !in creditBalanceCache.table {
        return None;
      }
      var entry := creditBalanceCache.table[account];
      if now - entry.updatedAt > TTL_MS {
        creditBalanceCache := creditBalanceCache.Delete(account);
        return None;
      }
      return Some(entry.balance);
    }

    /**
     * Afterwards the account has the new balance, stamped now. No other entry changes, and none goes except
     * the first-inserted one, and that only when a new account meets a full cache. A new account goes last.
     */
    method UpdateRemainingCredits(account: string, balance: real, now: int)
      requires Valid()
      modifies this
      ensures Valid() && creditCacheHydrated == old(creditCacheHydrated)
      ensures account in creditBalanceCache.table && creditBalanceCache.table[account] == Entry(balance, now)
      ensures forall k | k in creditBalanceCache.table && k != account ::
                k in old(creditBalanceCache).table && creditBalanceCache.table[k] == old(creditBalanceCache).table[k]
      ensures forall k | k in old(creditBalanceCache).table && k !in creditBalanceCache.table ::
                && account !in old(creditBalanceCache).table
                && old(|creditBalanceCache.order|) >= MAX_ENTRIES && k == old(creditBalanceCache).order[0]
      ensures account in old(creditBalanceCache).table ==> creditBalanceCache.order == old(creditBalanceCache).order
      ensures account !in old(creditBalanceCache).table ==>
                && creditBalanceCache.order[|creditBalanceCache.order| - 1] == account
                && creditBalanceCache.order[..|creditBalanceCache.order| - 1]
                   == old(creditBalanceCache).order[if old(|creditBalanceCache.order|) >= MAX_ENTRIES then 1 else 0..]
      ensures |creditBalanceCache.order| <= Max(MAX_ENTRIES, old(|creditBalanceCache.order|))
      ensures View() == Step(old(View()), Update(account, balance, now)).0
    {
      UpdateMeans(creditBalanceCache, account, balance, now);
      if |creditBalanceCache.order| >= MAX_ENTRIES && account !in creditBalanceCache.table {
        DropOldestMeans(creditBalanceCache);
        creditBalanceCache := creditBalanceCache.Delete(creditBalanceCache.order[0]);
      }
      creditBalanceCache := creditBalanceCache.Set(account, Entry(balance, now));
    }
  }
}
