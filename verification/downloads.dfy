/**
 * What the two file downloaders (SAFileDownloader and SASequentialFileDownloader)
 * share: the record of callbacks, the preferences store and files directory they
 * clean up, and the bookkeeping on queue snapshots their proofs are about.
 */
module Downloads {
  import opened JavaLang
  import opened Items
  import opened Queues

  // ---------------------------------------------------------------------------
  // Callbacks

  /** One call `listener.saDidDownloadFile(success, diskUrl)`. */
  datatype Event = Event(listener: Listener, success: bool, diskUrl: Option<string>)

  /** Calling every waiter in list order with the same result. */
  function Notify(waiters: seq<Listener>, success: bool, diskUrl: Option<string>): (r: seq<Event>)
    ensures |r| == |waiters|
    ensures forall k :: 0 <= k < |r| ==> r[k] == Event(waiters[k], success, diskUrl)
  {
    if waiters == [] then [] else [Event(waiters[0], success, diskUrl)] + Notify(waiters[1..], success, diskUrl)
  }

  /** Notifying one more waiter appends one more call. */
  lemma NotifySnoc(waiters: seq<Listener>, x: Listener, success: bool, diskUrl: Option<string>)
    ensures Notify(waiters + [x], success, diskUrl) == Notify(waiters, success, diskUrl) + [Event(x, success, diskUrl)]
  {
    var a, b := Notify(waiters + [x], success, diskUrl), Notify(waiters, success, diskUrl) + [Event(x, success, diskUrl)];
    assert |a| == |b|;
    forall k | 0 <= k < |a| ensures a[k] == b[k] {
      if k < |waiters| { assert (waiters + [x])[k] == waiters[k]; }
    }
  }

  /** Notifying the first k + 1 waiters is notifying the first k, then waiter k. */
  lemma NotifyPrefix(waiters: seq<Listener>, k: nat, success: bool, diskUrl: Option<string>)
    requires k < |waiters|
    ensures Notify(waiters[..k + 1], success, diskUrl) == Notify(waiters[..k], success, diskUrl) + [Event(waiters[k], success, diskUrl)]
  {
    assert waiters[..k + 1] == waiters[..k] + [waiters[k]];
    NotifySnoc(waiters[..k], waiters[k], success, diskUrl);
  }

  /** Who has been called back, counting repeats. */
  function Called(log: seq<Event>): multiset<Listener> {
    if log == [] then multiset{} else multiset{log[0].listener} + Called(log[1..])
  }

  lemma {:induction false} CalledConcat(a: seq<Event>, b: seq<Event>)
    ensures Called(a + b) == Called(a) + Called(b)
  {
    if a != [] {
      assert (a + b)[0] == a[0] && (a + b)[1..] == a[1..] + b;
      CalledConcat(a[1..], b);
    } else {
      assert a + b == b;
    }
  }

  /** Notifying a list of waiters calls each of them exactly once. */
  lemma {:induction false} NotifyCallsEachWaiterOnce(waiters: seq<Listener>, success: bool, diskUrl: Option<string>)
    ensures Called(Notify(waiters, success, diskUrl)) == multiset(waiters)
  {
    if waiters != [] {
      NotifyCallsEachWaiterOnce(waiters[1..], success, diskUrl);
      assert waiters == [waiters[0]] + waiters[1..];
    }
  }

  /** The log after notifying: the old log, then one event per waiter, and the callee count grows by exactly the waiters. */
  lemma LogAfterNotify(log: seq<Event>, waiters: seq<Listener>, success: bool, diskUrl: Option<string>)
    ensures Called(log + Notify(waiters, success, diskUrl)) == Called(log) + multiset(waiters)
  {
    CalledConcat(log, Notify(waiters, success, diskUrl));
    NotifyCallsEachWaiterOnce(waiters, success, diskUrl);
  }

  // ---------------------------------------------------------------------------
  // The preferences store and the files directory

  /** A SharedPreferences entry: a string, or a value of another type (`getString` throws ClassCastException on it). */
  datatype PrefValue = Text(s: string) | Other

  /**
   * The SharedPreferences file: its keys may be null, as the HashMap behind
   * it allows (`putString(null, value)` stores an entry under null).
   */
  type Store = map<Option<string>, PrefValue>

  /** The store with every string entry taken out. */
  function WithoutText(store: Store): (r: Store)
    ensures forall k :: k in r <==> k in store && store[k].Other?
    ensures forall k :: k in r ==> r[k] == store[k]
  {
    map k | k in store && store[k].Other? :: store[k]
  }

  /** The file names held by the string entries of a store. */
  function FileNames(store: Store): (r: set<string>)
    ensures forall k :: k in store && store[k].Text? ==> store[k].s in r
    ensures forall f :: f in r ==> exists k :: k in store && store[k] == Text(f)
  {
    set k | k in store && store[k].Text? :: store[k].s
  }

  /** One more entry adds its file name, if it is a string. */
  lemma FileNamesExtend(m: Store, k: Option<string>, v: PrefValue)
    requires k !in m
    ensures FileNames(m[k := v]) == FileNames(m) + (if v.Text? then {v.s} else {})
  {
    var m' := m[k := v];
    forall f | f in FileNames(m')
      ensures f in FileNames(m) + (if v.Text? then {v.s} else {})
    {
      var j :| j in m' && m'[j] == Text(f);
      if j != k { assert m[j] == Text(f); }
    }
    forall f | f in FileNames(m) ensures f in FileNames(m') {
      var j :| j in m && m[j] == Text(f);
      assert m'[j] == Text(f);
    }
    if v.Text? { assert m'[k] == v; }
  }

  /** The entries of `before` that are missing from `after`. */
  function Dropped(before: Store, after: Store): (r: Store)
    ensures forall k :: k in r <==> k in before && k !in after
  {
    map k | k in before && k !in after :: before[k]
  }

  /**
   * Removing string entries from the store in any order: `after` is `before`
   * minus some string entries, and the files they named are gone.
   */
  ghost predicate PartlyCleaned(before: Store, after: Store, filesBefore: set<string>, filesAfter: set<string>) {
    (forall k :: k in after ==> k in before && after[k] == before[k]) &&
    (forall k :: k in before && k !in after ==> before[k].Text?) &&
    filesAfter == filesBefore - FileNames(Dropped(before, after))
  }

  // ---------------------------------------------------------------------------
  // Queue snapshots

  /** The snapshot without position i. */
  function RemoveAt(q: seq<ItemVal>, i: nat): (r: seq<ItemVal>)
    requires i < |q|
    ensures |r| == |q| - 1
    ensures forall j :: 0 <= j < i ==> r[j] == q[j]
    ensures forall j :: i <= j < |r| ==> r[j] == q[j + 1]
  {
    q[..i] + q[i + 1..]
  }

  /** The snapshot with position i taken out and v appended, as removing and re-adding an item does. */
  function MoveAt(q: seq<ItemVal>, i: nat, v: ItemVal): (r: seq<ItemVal>)
    requires i < |q|
    ensures |r| == |q| && r[|q| - 1] == v
    ensures r[..|q| - 1] == RemoveAt(q, i)
  {
    RemoveAt(q, i) + [v]
  }

  /** Everyone waiting on some queued item, counting repeats. */
  function Waiting(q: seq<ItemVal>): multiset<Listener> {
    if q == [] then multiset{} else multiset(q[0].responses) + Waiting(q[1..])
  }

  lemma {:induction false} WaitingConcat(a: seq<ItemVal>, b: seq<ItemVal>)
    ensures Waiting(a + b) == Waiting(a) + Waiting(b)
  {
    if a != [] {
      assert (a + b)[0] == a[0] && (a + b)[1..] == a[1..] + b;
      WaitingConcat(a[1..], b);
    } else {
      assert a + b == b;
    }
  }

  lemma {:induction false} WaitingAround(q: seq<ItemVal>, i: nat)
    requires i < |q|
    ensures Waiting(q) == Waiting(q[..i]) + multiset(q[i].responses) + Waiting(q[i + 1..])
  {
    var a, b := q[..i], q[i + 1..];
    var c := a + [q[i]];
    assert q == c + b;
    WaitingConcat(c, b);
    WaitingConcat(a, [q[i]]);
    WaitingSingle(q[i]);
    assert Waiting(q) == Waiting(c) + Waiting(b);
  }

  lemma WaitingSingle(v: ItemVal)
    ensures Waiting([v]) == multiset(v.responses)
  {
    assert [v][1..] == [];
  }

  /** Replacing one item changes who is waiting by exactly that item's waiters. */
  lemma WaitingUpdate(q: seq<ItemVal>, i: nat, v: ItemVal)
    requires i < |q|
    ensures Waiting(q[i := v]) + multiset(q[i].responses) == Waiting(q) + multiset(v.responses)
  {
    WaitingAround(q, i);
    WaitingAround(q[i := v], i);
    assert q[i := v][..i] == q[..i] && q[i := v][i + 1..] == q[i + 1..];
  }

  /** Removing an item stops exactly its waiters from waiting. */
  lemma WaitingRemove(q: seq<ItemVal>, i: nat)
    requires i < |q|
    ensures Waiting(RemoveAt(q, i)) + multiset(q[i].responses) == Waiting(q)
  {
    WaitingAround(q, i);
    WaitingConcat(q[..i], q[i + 1..]);
  }

  /** Moving an item to the back changes who is waiting by exactly that item's waiters. */
  lemma WaitingMove(q: seq<ItemVal>, i: nat, v: ItemVal)
    requires i < |q|
    ensures Waiting(MoveAt(q, i, v)) + multiset(q[i].responses) == Waiting(q) + multiset(v.responses)
  {
    WaitingRemove(q, i);
    WaitingConcat(RemoveAt(q, i), [v]);
    WaitingSingle(v);
  }

  /** Giving up the item at i and calling its waiters moves them from waiting to called, once each. */
  lemma RemoveMovesWaiters(q: seq<ItemVal>, log: seq<Event>, i: nat, success: bool, diskUrl: Option<string>)
    requires i < |q|
    ensures Waiting(RemoveAt(q, i)) + Called(log + Notify(q[i].responses, success, diskUrl)) == Waiting(q) + Called(log)
  {
    WaitingRemove(q, i);
    LogAfterNotify(log, q[i].responses, success, diskUrl);
  }

  /** Replacing the item at i by one nobody waits on, and calling its waiters, moves them from waiting to called. */
  lemma ReplaceMovesWaiters(q: seq<ItemVal>, log: seq<Event>, i: nat, v: ItemVal, success: bool, diskUrl: Option<string>)
    requires i < |q| && v.responses == []
    ensures Waiting(q[i := v]) + Called(log + Notify(q[i].responses, success, diskUrl)) == Waiting(q) + Called(log)
  {
    var m := multiset(q[i].responses);
    WaitingUpdate(q, i, v);
    assert multiset(v.responses) == multiset{};
    LogAfterNotify(log, q[i].responses, success, diskUrl);
    calc {
      Waiting(q[i := v]) + Called(log + Notify(q[i].responses, success, diskUrl));
      Waiting(q[i := v]) + (Called(log) + m);
      (Waiting(q[i := v]) + m) + Called(log);
      Waiting(q) + Called(log);
    }
  }

  /** Replacing an item by one with the same waiters changes nobody's waiting. */
  lemma UpdateKeepsWaiters(q: seq<ItemVal>, i: nat, v: ItemVal)
    requires i < |q| && v.responses == q[i].responses
    ensures Waiting(q[i := v]) == Waiting(q)
  {
    var m := multiset(q[i].responses);
    WaitingUpdate(q, i, v);
    calc {
      Waiting(q[i := v]);
      (Waiting(q[i := v]) + m) - m;
      (Waiting(q) + m) - m;
      Waiting(q);
    }
  }

  /** Moving an item to the back with the same waiters changes nobody's waiting. */
  lemma MoveKeepsWaiters(q: seq<ItemVal>, i: nat, v: ItemVal)
    requires i < |q| && v.responses == q[i].responses
    ensures Waiting(MoveAt(q, i, v)) == Waiting(q)
  {
    var m := multiset(q[i].responses);
    WaitingMove(q, i, v);
    calc {
      Waiting(MoveAt(q, i, v));
      (Waiting(MoveAt(q, i, v)) + m) - m;
      (Waiting(q) + m) - m;
      Waiting(q);
    }
  }

  /**
   * How many more checkOnQueue activations an item can cost: none once on disk,
   * otherwise one per remaining fetch plus the final give-up.
   */
  function Weight(v: ItemVal): nat {
    if v.onDisk then 0 else 1 + AttemptsLeft(v)
  }

  /** How many more fetches an item can cost: none once on disk, otherwise its remaining retries. */
  function AttemptsLeft(v: ItemVal): nat {
    if v.onDisk || v.retries >= MaxRetries then 0 else MaxRetries - v.retries
  }

  /** The total of f over the items of a snapshot. */
  function Sum(q: seq<ItemVal>, f: ItemVal -> nat): nat {
    if q == [] then 0 else f(q[0]) + Sum(q[1..], f)
  }

  lemma {:induction false} SumConcat(a: seq<ItemVal>, b: seq<ItemVal>, f: ItemVal -> nat)
    ensures Sum(a + b, f) == Sum(a, f) + Sum(b, f)
  {
    if a != [] {
      assert (a + b)[0] == a[0] && (a + b)[1..] == a[1..] + b;
      SumConcat(a[1..], b, f);
    } else {
      assert a + b == b;
    }
  }

  lemma SumAround(q: seq<ItemVal>, i: nat, f: ItemVal -> nat)
    requires i < |q|
    ensures Sum(q, f) == Sum(q[..i], f) + f(q[i]) + Sum(q[i + 1..], f)
  {
    assert q == q[..i] + [q[i]] + q[i + 1..];
    SumConcat(q[..i] + [q[i]], q[i + 1..], f);
    SumConcat(q[..i], [q[i]], f);
    assert Sum([q[i]], f) == f(q[i]) by {
      assert [q[i]][1..] == [];
    }
  }

  lemma SumUpdate(q: seq<ItemVal>, i: nat, v: ItemVal, f: ItemVal -> nat)
    requires i < |q|
    ensures Sum(q[i := v], f) + f(q[i]) == Sum(q, f) + f(v)
  {
    SumAround(q, i, f);
    SumAround(q[i := v], i, f);
    assert q[i := v][..i] == q[..i] && q[i := v][i + 1..] == q[i + 1..];
  }

  lemma SumRemove(q: seq<ItemVal>, i: nat, f: ItemVal -> nat)
    requires i < |q|
    ensures Sum(RemoveAt(q, i), f) + f(q[i]) == Sum(q, f)
  {
    SumAround(q, i, f);
    SumConcat(q[..i], q[i + 1..], f);
  }

  lemma SumMove(q: seq<ItemVal>, i: nat, v: ItemVal, f: ItemVal -> nat)
    requires i < |q|
    ensures Sum(MoveAt(q, i, v), f) + f(q[i]) == Sum(q, f) + f(v)
  {
    SumRemove(q, i, f);
    SumConcat(RemoveAt(q, i), [v], f);
    assert Sum([v], f) == f(v) by {
      assert [v][1..] == [];
    }
  }

  /** An item after a failed attempt: one more retry counted, and not on disk. */
  function Retried(v: ItemVal): ItemVal {
    v.(retries := v.retries + 1, onDisk := false)
  }

  /** An item after k failed attempts in a row. */
  function RetriedTimes(v: ItemVal, k: nat): ItemVal {
    if k == 0 then v else Retried(RetriedTimes(v, k - 1))
  }

  /**
   * The retry budget: failures only count up, and k more of them leave an
   * item retries exactly while k is below its attempts left.
   */
  lemma {:induction false} RetryBudget(v: ItemVal, k: nat)
    requires !v.onDisk && v.retries <= MaxRetries
    ensures RetriedTimes(v, k) == v.(retries := v.retries + k)
    ensures RetriedTimes(v, k).HasRetriesRemaining() <==> k < AttemptsLeft(v)
    ensures AttemptsLeft(RetriedTimes(v, k)) == if k < AttemptsLeft(v) then AttemptsLeft(v) - k else 0
  {
    if k > 0 {
      RetryBudget(v, k - 1);
    }
  }

  /** A fresh item can fail MaxRetries - 1 times and still be tried, but not MaxRetries times. */
  lemma FreshRetryBudget(v: ItemVal)
    requires !v.onDisk && v.retries == 0
    ensures RetriedTimes(v, MaxRetries - 1).HasRetriesRemaining() && !RetriedTimes(v, MaxRetries).HasRetriesRemaining()
  {
    RetryBudget(v, MaxRetries - 1);
    RetryBudget(v, MaxRetries);
  }

  /** No item can cost more than MaxRetries fetches, so a queue of n items costs at most n * MaxRetries. */
  lemma {:induction false} AttemptsBounded(q: seq<ItemVal>)
    ensures Sum(q, AttemptsLeft) <= MaxRetries * |q|
  {
    if q != [] {
      AttemptsBounded(q[1..]);
    }
  }

  // ---------------------------------------------------------------------------
  // Invariants of a queue snapshot

  /** No two queued items share a URL key (a null key counts as a key). */
  ghost predicate DistinctUrls(q: seq<ItemVal>) {
    forall i, j :: 0 <= i < j < |q| ==> q[i].urlKey != q[j].urlKey
  }

  /** An item on disk has nobody waiting; no item has failed more than MaxRetries times. */
  ghost predicate Settled(q: seq<ItemVal>) {
    forall v :: v in q ==> (v.onDisk ==> v.responses == []) && v.retries <= MaxRetries
  }

  /** With every item on disk and no waiter on a finished item, nobody is waiting. */
  lemma {:induction false} NobodyWaitsOnFinishedQueue(q: seq<ItemVal>)
    requires Settled(q) && forall v :: v in q ==> v.onDisk
    ensures Waiting(q) == multiset{}
  {
    if q != [] {
      assert q[0] in q;
      assert Settled(q[1..]) && forall v :: v in q[1..] ==> v.onDisk by {
        forall v | v in q[1..] ensures v in q { }
      }
      NobodyWaitsOnFinishedQueue(q[1..]);
    }
  }

  lemma DistinctUrlsUpdate(q: seq<ItemVal>, i: nat, v: ItemVal)
    requires i < |q| && DistinctUrls(q) && v.urlKey == q[i].urlKey
    ensures DistinctUrls(q[i := v])
  {
  }

  lemma DistinctUrlsRemove(q: seq<ItemVal>, i: nat)
    requires i < |q| && DistinctUrls(q)
    ensures DistinctUrls(RemoveAt(q, i))
  {
    var r := RemoveAt(q, i);
    forall a, b | 0 <= a < b < |r| ensures r[a].urlKey != r[b].urlKey {
      var a', b' := if a < i then a else a + 1, if b < i then b else b + 1;
      assert r[a] == q[a'] && r[b] == q[b'] && a' < b';
    }
  }

  lemma DistinctUrlsMove(q: seq<ItemVal>, i: nat, v: ItemVal)
    requires i < |q| && DistinctUrls(q) && v.urlKey == q[i].urlKey
    ensures DistinctUrls(MoveAt(q, i, v))
  {
    var r := MoveAt(q, i, v);
    DistinctUrlsRemove(q, i);
    forall a, b | 0 <= a < b < |r| ensures r[a].urlKey != r[b].urlKey {
      if b == |r| - 1 {
        var a' := if a < i then a else a + 1;
        assert r[a] == q[a'] && a' != i;
        if a' < i { assert q[a'].urlKey != q[i].urlKey; } else { assert q[i].urlKey != q[a'].urlKey; }
      } else {
        assert r[a] == RemoveAt(q, i)[a] && r[b] == RemoveAt(q, i)[b];
      }
    }
  }

  lemma DistinctUrlsAppend(q: seq<ItemVal>, v: ItemVal)
    requires DistinctUrls(q) && forall j :: 0 <= j < |q| ==> q[j].urlKey != v.urlKey
    ensures DistinctUrls(q + [v])
  {
  }

  /** Elements of a moved or shortened snapshot come from the original or are the new item. */
  lemma ElementsOfMoveAt(q: seq<ItemVal>, i: nat, v: ItemVal)
    requires i < |q|
    ensures forall x :: x in RemoveAt(q, i) ==> x in q
    ensures forall x :: x in MoveAt(q, i, v) ==> x in q || x == v
  {
    assert forall x :: x in RemoveAt(q, i) ==> x in q[..i] || x in q[i + 1..];
  }

  lemma ElementsOfUpdate(q: seq<ItemVal>, i: nat, v: ItemVal)
    requires i < |q|
    ensures forall x :: x in q[i := v] ==> x in q || x == v
  {
    forall x | x in q[i := v] ensures x in q || x == v {
      var j :| 0 <= j < |q| && q[i := v][j] == x;
      if j != i { assert q[j] == x; }
    }
  }

  // ---------------------------------------------------------------------------
  // Queue objects and their snapshots

  /** No object appears twice in the list. */
  predicate NoAlias(items: seq<DownloadItem>) {
    forall a, b :: 0 <= a < b < |items| ==> items[a] != items[b]
  }

  /** No two queued items with different URL keys can be the same object. */
  lemma DistinctItems(items: seq<DownloadItem>)
    requires DistinctUrls(ValsOf(items))
    ensures NoAlias(items)
  {
    forall a, b | 0 <= a < b < |items| ensures items[a] != items[b] {
      DifferentKeysDifferentItems(items, a, b);
    }
  }

  lemma DifferentKeysDifferentItems(items: seq<DownloadItem>, a: nat, b: nat)
    requires 0 <= a < b < |items| && DistinctUrls(ValsOf(items))
    ensures items[a] != items[b]
  {
    assert ValsOf(items)[a].urlKey != ValsOf(items)[b].urlKey;
  }

  lemma ValsOfAppend(items: seq<DownloadItem>, item: DownloadItem)
    ensures ValsOf(items + [item]) == ValsOf(items) + [item.Val()]
  {
  }

  /** A snapshot that differs from another only at position i is that one updated at i. */
  lemma SnapshotUpdate(before: seq<ItemVal>, after: seq<ItemVal>, i: nat)
    requires i < |before| == |after|
    requires forall j :: 0 <= j < |after| && j != i ==> after[j] == before[j]
    ensures after == before[i := after[i]]
  {
  }

  /** What was at position i does not matter once it is removed or replaced at the back. */
  lemma RemoveAtIgnoresReplaced(q: seq<ItemVal>, i: nat, w: ItemVal, v: ItemVal)
    requires i < |q|
    ensures RemoveAt(q[i := w], i) == RemoveAt(q, i)
    ensures MoveAt(q[i := w], i, v) == MoveAt(q, i, v)
  {
  }

  /** Removing the object at position i removes the snapshot at position i. */
  lemma ValsOfRemove(items: seq<DownloadItem>, i: nat)
    requires i < |items| && NoAlias(items)
    ensures RemoveFirst(items, items[i]) == items[..i] + items[i + 1..]
    ensures ValsOf(RemoveFirst(items, items[i])) == RemoveAt(ValsOf(items), i)
    ensures forall x :: x in RemoveFirst(items, items[i]) ==> x in items
  {
    var j := IndexOf(items, items[i]);
    assert items[j] == items[i];
    var r := items[..i] + items[i + 1..];
    assert RemoveFirst(items, items[i]) == r;
    var a, b := ValsOf(r), RemoveAt(ValsOf(items), i);
    forall k | 0 <= k < |a| ensures a[k] == b[k] {
      if k < i {
        assert r[k] == items[k];
      } else {
        assert r[k] == items[k + 1];
      }
    }
    SpliceMembers(items, i);
  }

  lemma SpliceMembers<T>(s: seq<T>, i: nat)
    requires i < |s|
    ensures forall x :: x in s[..i] + s[i + 1..] ==> x in s
  {
    forall x | x in s[..i] + s[i + 1..] ensures x in s {
      if x in s[..i] { assert x in s[..i]; } else { assert x in s[i + 1..]; }
    }
  }

  /** Moving the object at position i to the back moves its snapshot. */
  lemma ValsOfMoveToBack(items: seq<DownloadItem>, i: nat)
    requires i < |items| && NoAlias(items)
    ensures ValsOf(MoveToBack(items, items[i])) == MoveAt(ValsOf(items), i, items[i].Val())
    ensures forall x :: x in MoveToBack(items, items[i]) ==> x in items
  {
    ValsOfRemove(items, i);
    ValsOfAppend(RemoveFirst(items, items[i]), items[i]);
  }
}
