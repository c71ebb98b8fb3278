/**
 * Which entries are still in the credit-balance cache, read off the operations: entries leave it by being
 * found stale, or first in first out.
 */
module CreditCacheOrder {
  import opened Options
  import opened OrderedMaps
  import opened CreditCache

  /** An entry was stored for the account and no later sweep, or read of the account, found it stale. */
  function Kept(ops: seq<Op>, account: string): bool {
    if ops == [] then false
    else
      var rest, op := ops[..|ops| - 1], ops[|ops| - 1];
      match op
      case Update(a, _, _) => a == account || Kept(rest, account)
      case Read(a, _, now) =>
        && (Kept(rest, account) || Loads(rest, op, account))
        && (a == account ==> FreshAt(LastStored(ops, account), now))
      case Sweep(now) => Kept(rest, account) && FreshAt(LastStored(rest, account), now)
  }

  predicate FreshAt(e: Option<Entry>, now: int) {
    e.Some? && now - e.value.updatedAt <= 300000
  }

  /** The accounts that loading adds, in order. */
  function NewLoaded(m: Entries, loaded: seq<Loaded>): seq<string> {
    if loaded == [] then []
    else
      var before, k := NewLoaded(m, loaded[..|loaded| - 1]), loaded[|loaded| - 1].account;
      if k in m.table || k in before then before else before + [k]
  }

  /** The accounts that the last operation inserts. */
  function Inserted(rest: seq<Op>, op: Op): seq<string> {
    match op
    case Update(account, _, _) => if account in Run(rest).entries.table then [] else [account]
    case Read(_, loaded, _) => if HasRead(rest) then [] else NewLoaded(Run(rest).entries, loaded)
    case Sweep(_) => []
  }

  /** Every insertion of the run, in order. */
  function Log(ops: seq<Op>): seq<string> {
    if ops == [] then [] else Log(ops[..|ops| - 1]) + Inserted(ops[..|ops| - 1], ops[|ops| - 1])
  }

  /** The accounts in the log after the last insertion of `k`. */
  function After(log: seq<string>, k: string): set<string> {
    if log == [] then {}
    else
      var last := log[|log| - 1];
      if last == k then {} else After(log[..|log| - 1], k) + {last}
  }

  // ---------------------------------------------------------------- orders and logs

  ghost predicate Before(s: seq<string>, a: string, b: string) {
    exists i, j :: 0 <= i < j < |s| && s[i] == a && s[j] == b
  }

  lemma AfterLast(log: seq<string>, last: string, k: string)
    ensures After(log + [last], k) == if last == k then {} else After(log, k) + {last}
  {
    assert (log + [last])[..|log|] == log;
  }

  lemma {:induction false} NotBothAfter(log: seq<string>, a: string, b: string)
    ensures !(a in After(log, b) && b in After(log, a))
    ensures a !in After(log, a)
  {
    if log != [] {
      NotBothAfter(log[..|log| - 1], a, b);
    }
  }

  lemma {:induction false} FewKeys(order: seq<string>, names: set<string>)
    requires Distinct(order) && forall k :: k in order ==> k in names
    ensures |order| <= |names|
  {
    if order != [] {
      var rest, k := order[..|order| - 1], order[|order| - 1];
      assert k in order && k !in rest;
      FewKeys(rest, names - {k});
    }
  }

  lemma FewerAccounts(a: set<string>, b: set<string>)
    requires a <= b
    ensures |a| <= |b|
  {
    assert b == a + (b - a);
  }

  lemma {:induction false} WithoutBefore(s: seq<string>, k: string, a: string, b: string)
    requires Before(Without(s, k), a, b)
    ensures Before(s, a, b)
  {
    var w := Without(s, k);
    var i, j :| 0 <= i < j < |w| && w[i] == a && w[j] == b;
    var t := Without(s[1..], k);
    if s[0] != k && i == 0 {
      assert w[j] in s[1..] by {
        assert t[j - 1] in t;
      }
      var n :| 0 <= n < |s[1..]| && s[1..][n] == b;
      assert s[n + 1] == b;
    } else {
      assert Before(t, a, b) by {
        var d := if s[0] == k then 0 else 1;
        assert t[i - d] == a && t[j - d] == b;
      }
      WithoutBefore(s[1..], k, a, b);
      BeforeTail(s, a, b);
    }
  }

  lemma BeforeTail(s: seq<string>, a: string, b: string)
    requires s != [] && Before(s[1..], a, b)
    ensures Before(s, a, b)
  {
    var i, j :| 0 <= i < j < |s[1..]| && s[1..][i] == a && s[1..][j] == b;
    assert s[i + 1] == a && s[j + 1] == b;
  }

  lemma BeforeLast(s: seq<string>, k: string, a: string, b: string)
    ensures Before(s + [k], a, b) <==> Before(s, a, b) || (a in s && b == k)
  {
    var t := s + [k];
    if Before(t, a, b) {
      var i, j :| 0 <= i < j < |t| && t[i] == a && t[j] == b;
      assert s[i] == a;
      if j < |s| {
        assert s[j] == b;
      }
    }
    if Before(s, a, b) {
      var i, j :| 0 <= i < j < |s| && s[i] == a && s[j] == b;
      assert t[i] == a && t[j] == b;
    }
    if a in s && b == k {
      var i :| 0 <= i < |s| && s[i] == a;
      assert t[i] == a && t[|s|] == b;
    }
  }

  lemma {:induction false} FreshBefore(order: seq<string>, table: map<string, Entry>, now: int, a: string, b: string)
    requires Before(KeepFresh(order, table, now), a, b)
    ensures Before(order, a, b)
  {
    if order != [] {
      var rest, k := order[..|order| - 1], order[|order| - 1];
      var kept := KeepFresh(rest, table, now);
      assert order == rest + [k];
      BeforeLast(rest, k, a, b);
      KeepFreshMembers(rest, table, now);
      if k in table && Stale(table[k], now) {
        assert kept + [] == kept;
      } else {
        BeforeLast(kept, k, a, b);
      }
      if Before(kept, a, b) {
        FreshBefore(rest, table, now, a, b);
      }
    }
  }

  // ---------------------------------------------------------------- first in, first out

  /**
   * A cache, the log of its insertions and the accounts not found stale: only those are cached, in the order of
   * their last insertion; one that is missing has fifty inserted after it; and none that was inserted after
   * a cached one is missing.
   */
  ghost predicate Fifo(m: Entries, log: seq<string>, kept: iset<string>) {
    && (forall k :: k in m.table ==> k in kept)
    && (forall a, b :: Before(m.order, a, b) ==> b in After(log, a))
    && (forall k :: k in kept && k !in m.table ==> |After(log, k)| >= MAX_ENTRIES)
    && (forall a, b :: a in m.table && b in After(log, a) && b in kept ==> b in m.table)
  }

  lemma AddFifo(m: Entries, log: seq<string>, kept: iset<string>, k: string, e: Entry)
    requires m.Valid() && Fifo(m, log, kept) && k !in m.table
    ensures Fifo(m.Set(k, e), log + [k], kept + iset{k})
  {
    var r := m.Set(k, e);
    forall a, b | Before(r.order, a, b) ensures b in After(log + [k], a) {
      BeforeLast(m.order, k, a, b);
      AfterLast(log, k, a);
      assert a in m.order;
    }
    forall x | x in kept + iset{k} && x !in r.table ensures |After(log + [k], x)| >= MAX_ENTRIES {
      AfterLast(log, k, x);
      FewerAccounts(After(log, x), After(log + [k], x));
    }
    forall a, b | a in r.table && b in After(log + [k], a) && b in kept + iset{k} ensures b in r.table {
      AfterLast(log, k, a);
    }
  }

  lemma OldestIsBefore(order: seq<string>, k: string)
    requires order != [] && k in order[1..]
    ensures Before(order, order[0], k)
  {
    var i :| 0 <= i < |order[1..]| && order[1..][i] == k;
    assert order[i + 1] == k;
  }

  lemma DropOldestFifo(m: Entries, log: seq<string>, kept: iset<string>)
    requires m.Valid() && Fifo(m, log, kept) && |m.order| > MAX_ENTRIES
    ensures Fifo(DropOldest(m), log, kept)
  {
    var r, oldest, newer := DropOldest(m), m.order[0], m.order[1..];
    DropOldestMeans(m);
    forall k | k in newer ensures k in After(log, oldest) {
      OldestIsBefore(m.order, k);
    }
    FewKeys(newer, After(log, oldest));
    forall a, b | Before(r.order, a, b) ensures b in After(log, a) {
      BeforeTail(m.order, a, b);
    }
    forall a, b | a in r.table && b in After(log, a) && b in kept ensures b in r.table {
      assert a in newer;
      NotBothAfter(log, oldest, a);
    }
    forall k | k in kept && k !in r.table ensures |After(log, k)| >= MAX_ENTRIES {
      assert k in m.table ==> k == oldest;
    }
  }

  lemma {:induction false} DropExcessFifo(m: Entries, log: seq<string>, kept: iset<string>)
    requires m.Valid() && Fifo(m, log, kept)
    ensures Fifo(DropExcess(m), log, kept)
    decreases |m.order|
  {
    if |m.order| > MAX_ENTRIES {
      DropOldestMeans(m);
      DropOldestFifo(m, log, kept);
      DropExcessFifo(DropOldest(m), log, kept);
    }
  }

  /** Dropping what is not kept any more leaves the rest in order. */
  lemma ThinFifo(m: Entries, r: Entries, log: seq<string>, kept: iset<string>, still: iset<string>)
    requires Fifo(m, log, kept) && still <= kept
    requires forall k :: k in r.table <==> k in m.table && k in still
    requires forall a, b :: Before(r.order, a, b) ==> Before(m.order, a, b)
    ensures Fifo(r, log, still)
  {
  }

  lemma WithoutFirstThenLast(order: seq<string>, k: string)
    requires order != [] && Distinct(order) && k !in order
    ensures Without(order + [k], order[0]) == Without(order, order[0]) + [k]
  {
    WithoutFirst(order);
    assert (order + [k])[0] == order[0] && (order + [k])[1..] == order[1..] + [k];
    WithoutFirst(order + [k]);
  }

  lemma RemoveCommutes(table: map<string, Entry>, oldest: string, k: string, e: Entry)
    requires k != oldest
    ensures table[k := e] - {oldest} == (table - {oldest})[k := e]
  {
  }

  /** The oldest may be dropped before or after the new account is added. */
  lemma PutAddsFirst(m: Entries, account: string, balance: real, now: int)
    requires m.Valid() && account !in m.table && |m.order| >= MAX_ENTRIES
    ensures Put(m, account, balance, now) == DropOldest(m.Set(account, Entry(balance, now)))
  {
    var oldest := m.order[0];
    assert oldest in m.order && account !in m.order;
    WithoutFirstThenLast(m.order, account);
    RemoveCommutes(m.table, oldest, account, Entry(balance, now));
    assert (m.order + [account])[0] == oldest;
  }

  lemma PutFifo(m: Entries, log: seq<string>, kept: iset<string>, account: string, balance: real, now: int)
    requires m.Valid() && Fifo(m, log, kept)
    ensures Fifo(Put(m, account, balance, now), log + if account in m.table then [] else [account],
                 kept + iset{account})
  {
    var e := Entry(balance, now);
    if account in m.table {
      assert log + [] == log;
      assert kept + iset{account} == kept;
    } else {
      AddFifo(m, log, kept, account, e);
      if |m.order| >= MAX_ENTRIES {
        PutAddsFirst(m, account, balance, now);
        SetValid(m, account, e);
        DropOldestFifo(m.Set(account, e), log + [account], kept + iset{account});
      }
    }
  }

  lemma EvictFifo(m: Entries, log: seq<string>, kept: iset<string>, still: iset<string>, now: int)
    requires m.Valid() && Fifo(m, log, kept) && still <= kept
    requires forall k :: k in m.table ==> (k in still <==> !Stale(m.table[k], now))
    ensures Fifo(Evict(m, now), log, still)
  {
    var r := DropStale(m, m.order, now);
    DropStaleMeans(m, now);
    DropStaleTable(m, now, |m.order|);
    assert m.order[..|m.order|] == m.order;
    forall a, b | Before(r.order, a, b) ensures Before(m.order, a, b) {
      FreshBefore(m.order, m.table, now, a, b);
    }
    ThinFifo(m, r, log, kept, still);
    DropExcessFifo(r, log, still);
  }

  lemma LookupFifo(m: Entries, log: seq<string>, kept: iset<string>, still: iset<string>, account: string, now: int)
    requires m.Valid() && Fifo(m, log, kept) && still <= kept
    requires forall k :: k in m.table ==> (k in still <==> (k == account ==> !Stale(m.table[k], now)))
    ensures Fifo(Lookup(m, account, now).0, log, still)
  {
    var r := Lookup(m, account, now).0;
    forall a, b | Before(r.order, a, b) ensures Before(m.order, a, b) {
      if r != m {
        WithoutBefore(m.order, account, a, b);
      }
    }
    ThinFifo(m, r, log, kept, still);
  }

  ghost function Members(s: seq<string>): iset<string> {
    iset k | k in s
  }

  lemma {:induction false} LoadFifo(m: Entries, log: seq<string>, kept: iset<string>, loaded: seq<Loaded>)
    requires m.Valid() && Fifo(m, log, kept)
    ensures Fifo(LoadAll(m, loaded), log + NewLoaded(m, loaded), kept + Members(NewLoaded(m, loaded)))
    ensures forall k :: k in LoadAll(m, loaded).table <==> k in m.table || k in NewLoaded(m, loaded)
  {
    if loaded == [] {
      assert log + [] == log;
      assert kept + Members(NewLoaded(m, loaded)) == kept;
    } else {
      var rest, l := loaded[..|loaded| - 1], loaded[|loaded| - 1];
      LoadFifo(m, log, kept, rest);
      LoadAllMeans(m, rest);
      var r, more := LoadAll(m, rest), NewLoaded(m, rest);
      if l.account !in r.table {
        AddFifo(r, log + more, kept + Members(more), l.account, Entry(l.balance, l.at));
        assert log + (more + [l.account]) == (log + more) + [l.account];
        assert (kept + Members(more)) + iset{l.account} == kept + Members(more + [l.account]);
      }
    }
  }

  // ---------------------------------------------------------------- over every run

  ghost function KeptAccounts(ops: seq<Op>): iset<string> {
    iset k | Kept(ops, k)
  }

  ghost predicate RunsFifo(ops: seq<Op>) {
    Fifo(Run(ops).entries, Log(ops), KeptAccounts(ops))
  }

  lemma LogLast(rest: seq<Op>, op: Op)
    ensures Log(rest + [op]) == Log(rest) + Inserted(rest, op)
    ensures Run(rest + [op]) == Step(Run(rest), op).0
  {
    assert (rest + [op])[..|rest|] == rest;
  }

  lemma KeptLast(rest: seq<Op>, op: Op, account: string)
    ensures op.Update? ==> Kept(rest + [op], account) == (op.account == account || Kept(rest, account))
    ensures op.Read? ==> Kept(rest + [op], account)
                         == ((Kept(rest, account) || Loads(rest, op, account))
                             && (op.account == account ==> FreshAt(LastStored(rest + [op], account), op.now)))
    ensures op.Sweep? ==> Kept(rest + [op], account)
                          == (Kept(rest, account) && FreshAt(LastStored(rest, account), op.now))
  {
    assert (rest + [op])[..|rest|] == rest;
  }

  lemma UpdateFifo(rest: seq<Op>, op: Op)
    requires op.Update? && RunsFifo(rest)
    ensures RunsFifo(rest + [op])
  {
    RunFaithful(rest);
    LogLast(rest, op);
    PutFifo(Run(rest).entries, Log(rest), KeptAccounts(rest), op.account, op.balance, op.now);
    forall k ensures Kept(rest + [op], k) <==> op.account == k || Kept(rest, k) {
      KeptLast(rest, op, k);
    }
    assert KeptAccounts(rest + [op]) == KeptAccounts(rest) + iset{op.account};
  }

  lemma SweepFifo(rest: seq<Op>, op: Op)
    requires op.Sweep? && RunsFifo(rest)
    ensures RunsFifo(rest + [op])
  {
    RunFaithful(rest);
    LogLast(rest, op);
    forall k ensures Kept(rest + [op], k) <==> Kept(rest, k) && FreshAt(LastStored(rest, k), op.now) {
      KeptLast(rest, op, k);
    }
    EvictFifo(Run(rest).entries, Log(rest), KeptAccounts(rest), KeptAccounts(rest + [op]), op.now);
    assert Log(rest) + [] == Log(rest);
  }

  lemma {:induction false} NewLoadedMeans(m: Entries, loaded: seq<Loaded>, k: string)
    ensures k in NewLoaded(m, loaded) <==> k !in m.table && FirstLoaded(loaded, k).Some?
  {
    if loaded != [] {
      NewLoadedMeans(m, loaded[..|loaded| - 1], k);
    }
  }

  /** The cache, its log and the kept accounts when a read has hydrated it. */
  lemma HydrateFifo(rest: seq<Op>, op: Op)
    requires op.Read? && RunsFifo(rest)
    ensures Fifo(Hydrate(Run(rest), op.loaded).entries, Log(rest) + Inserted(rest, op),
                 iset k | Kept(rest, k) || Loads(rest, op, k))
  {
    RunFaithful(rest);
    var m := Run(rest).entries;
    var kept := iset k | Kept(rest, k) || Loads(rest, op, k);
    if HasRead(rest) {
      assert Log(rest) + [] == Log(rest);
      assert kept == KeptAccounts(rest);
    } else {
      LoadFifo(m, Log(rest), KeptAccounts(rest), op.loaded);
      forall k ensures k in NewLoaded(m, op.loaded) <==> Loads(rest, op, k) {
        NewLoadedMeans(m, op.loaded, k);
      }
      assert kept == KeptAccounts(rest) + Members(NewLoaded(m, op.loaded));
    }
  }

  lemma ReadFifo(rest: seq<Op>, op: Op)
    requires op.Read? && RunsFifo(rest)
    ensures RunsFifo(rest + [op])
  {
    var h := Hydrate(Run(rest), op.loaded).entries;
    var kept := iset k | Kept(rest, k) || Loads(rest, op, k);
    RunFaithful(rest);
    ReadFaithful(rest, op);
    LogLast(rest, op);
    HydrateFifo(rest, op);
    forall k ensures k in KeptAccounts(rest + [op])
                     <==> k in kept && (op.account == k ==> FreshAt(LastStored(rest + [op], k), op.now)) {
      KeptLast(rest, op, k);
    }
    LookupFifo(h, Log(rest + [op]), kept, KeptAccounts(rest + [op]), op.account, op.now);
  }

  lemma {:induction false} RunFifo(ops: seq<Op>)
    ensures RunsFifo(ops)
  {
    if ops != [] {
      var rest, op := ops[..|ops| - 1], ops[|ops| - 1];
      assert ops == rest + [op];
      RunFifo(rest);
      match op
      case Update(_, _, _) => UpdateFifo(rest, op);
      case Read(_, _, _) => ReadFifo(rest, op);
      case Sweep(_) => SweepFifo(rest, op);
    }
  }

  /**
   * For every run and any number of accounts. Only entries that were stored and not found stale since are cached.
   * Such an entry is missing only if fifty accounts were inserted after it, and never while one that was
   * inserted before it is cached.
   */
  lemma FirstInFirstOut(ops: seq<Op>, account: string)
    ensures var m, newer := Run(ops).entries, After(Log(ops), account);
            && (account in m.table ==> Kept(ops, account))
            && (Kept(ops, account) && |newer| < 50 ==> account in m.table)
            && (account in m.table ==> forall b :: b in newer && Kept(ops, b) ==> b in m.table)
  {
    RunFifo(ops);
    assert Kept(ops, account) <==> account in KeptAccounts(ops);
    assert forall b :: Kept(ops, b) <==> b in KeptAccounts(ops);
  }

  /**
   * The exact content as long as no logged entry has been found stale and the cap holds: the cache is made of the
   * accounts with fewer than fifty inserted after them.
   */
  lemma NewestFiftyCached(ops: seq<Op>, account: string)
    requires forall b :: b in Log(ops) ==> Kept(ops, b)
    requires |Run(ops).entries.order| <= MAX_ENTRIES
    ensures account in Run(ops).entries.table
            <==> Kept(ops, account) && |After(Log(ops), account)| < 50
  {
    var m, newer := Run(ops).entries, After(Log(ops), account);
    FirstInFirstOut(ops, account);
    RunFaithful(ops);
    if account in m.table {
      forall b | b in newer ensures b in m.table {
        AfterInLog(Log(ops), account, b);
      }
      NotBothAfter(Log(ops), account, account);
      KeysBound(m, newer + {account});
    }
  }

  lemma {:induction false} AfterInLog(log: seq<string>, k: string, b: string)
    requires b in After(log, k)
    ensures b in log
  {
    if b != log[|log| - 1] {
      AfterInLog(log[..|log| - 1], k, b);
    }
  }

  lemma KeysBound(m: Entries, names: set<string>)
    requires m.Valid() && forall k :: k in names ==> k in m.table
    ensures |names| <= |m.order|
  {
    SetOf(m.order);
    FewerAccounts(names, set k | k in m.order);
  }

  lemma {:induction false} SetOf(order: seq<string>)
    ensures |set k | k in order| <= |order|
  {
    if order != [] {
      var rest, k := order[..|order| - 1], order[|order| - 1];
      SetOf(rest);
      assert (set x | x in order) == (set x | x in rest) + {k};
    }
  }

  // ---------------------------------------------------------------- within fifty accounts

  function LoadedAccounts(loaded: seq<Loaded>): set<string> {
    if loaded == [] then {} else LoadedAccounts(loaded[..|loaded| - 1]) + {loaded[|loaded| - 1].account}
  }

  /** The accounts that a run stores balances for. */
  function Accounts(ops: seq<Op>): set<string> {
    if ops == [] then {}
    else
      var op := ops[|ops| - 1];
      Accounts(ops[..|ops| - 1])
      + match op
        case Update(account, _, _) => {account}
        case Read(_, loaded, _) => LoadedAccounts(loaded)
        case Sweep(_) => {}
  }

  lemma {:induction false} FirstLoadedIn(loaded: seq<Loaded>, k: string)
    ensures FirstLoaded(loaded, k).Some? ==> k in LoadedAccounts(loaded)
  {
    if loaded != [] {
      FirstLoadedIn(loaded[..|loaded| - 1], k);
    }
  }

  lemma {:induction false} StoredInAccounts(ops: seq<Op>, k: string)
    ensures Kept(ops, k) || k in Log(ops) ==> k in Accounts(ops)
  {
    if ops != [] {
      var rest, op := ops[..|ops| - 1], ops[|ops| - 1];
      StoredInAccounts(rest, k);
      if op.Read? {
        FirstLoadedIn(op.loaded, k);
        NewLoadedMeans(Run(rest).entries, op.loaded, k);
      }
    }
  }

  /** Fewer than fifty accounts come after one, when there are fifty at most. */
  lemma FewAfter(ops: seq<Op>, account: string)
    requires Kept(ops, account) && |Accounts(ops)| <= MAX_ENTRIES
    ensures |After(Log(ops), account)| < 50
  {
    var newer := After(Log(ops), account);
    forall b | b in newer + {account} ensures b in Accounts(ops) {
      StoredInAccounts(ops, b);
      if b in newer {
        AfterInLog(Log(ops), account, b);
      }
    }
    NotBothAfter(Log(ops), account, account);
    FewerAccounts(newer + {account}, Accounts(ops));
  }

  /**
   * While a run stores balances for fifty accounts at most, an entry leaves the cache only by being found
   * stale: the cache holds an entry exactly for the accounts that were stored and not found stale since.
   */
  lemma EntriesStayWhileRoom(ops: seq<Op>, account: string)
    requires |Accounts(ops)| <= MAX_ENTRIES
    ensures account in Run(ops).entries.table <==> Kept(ops, account)
  {
    FirstInFirstOut(ops, account);
    if Kept(ops, account) {
      FewAfter(ops, account);
    }
  }

  // ---------------------------------------------------------------- what reads return

  /**
   * So a read returns the last stored balance of an account exactly when one was stored, no sweep or read has
   * found it stale since, and it is not stale now; unless fifty accounts were inserted after it.
   */
  lemma ReadReturnsKept(ops: seq<Op>, read: Op)
    requires read.Read?
    requires Kept(ops + [read], read.account) ==> |After(Log(ops + [read]), read.account)| < MAX_ENTRIES
    ensures var stored := LastStored(ops + [read], read.account);
            && (Kept(ops + [read], read.account) ==> stored.Some?)
            && Step(Run(ops), read).1
               == if Kept(ops + [read], read.account) then Some(stored.value.balance) else None
  {
    FirstInFirstOut(ops + [read], read.account);
    ReadReturnsLastStored(ops, read);
    LogLast(ops, read);
    KeptLast(ops, read, read.account);
  }
}
