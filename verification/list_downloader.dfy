/**
 * SAFileListDownloader: downloads a list of files, one request per index,
 * and calls its listener once, when as many per-file callbacks as there are
 * files have arrived, with the disk locations of the files.
 *
 * A request for file i carries i back in its callback, so each callback
 * records an entry (index, diskUrl) and bumps the batch's counter. When the
 * counter reaches the number of files, the entries are turned into the list
 * of disk locations. The code means to sort the entries by index first (the
 * `SAFileListItem.compareTo` order), but `Arrays.sort(filesDownloaded.toArray())`
 * sorts a copy and leaves the list itself in arrival order: `ArrivalFiles`
 * models that, and it is what the class delivers; `DeliveredFiles` is the
 * intended index order.
 *
 * The downloads themselves go to the file downloader; here they are the log
 * `requests` of (index, file) pairs, and their answers are the calls of
 * `Batch.DidDownloadFileAtIndex`.
 */
module ListDownloads {
  import opened JavaLang

  /** A `SAFileListDownloaderInterface`: a caller's id, or the no-op listener a new downloader starts with. */
  datatype ListListener = ListCaller(id: nat) | Silent

  /** `SAFileListItem`: where a file goes back in the list, and its disk location (null for a failed file). */
  datatype ListItem = ListItem(index: int, file: Option<string>)

  /** One call of the final listener: which listener, with which list. */
  datatype Delivery = Delivery(listener: ListListener, files: seq<Option<string>>)

  // ---------------------------------------------------------------------------
  // compareTo

  /** `SAFileListItem.compareTo`: 1, -1 or 0 as this index is above, below or equal to the other. */
  function CompareTo(a: ListItem, b: ListItem): (r: int)
    ensures r == 1 <==> a.index > b.index
    ensures r == -1 <==> a.index < b.index
    ensures r == 0 <==> a.index == b.index
  {
    if a.index > b.index then 1
    else if a.index < b.index then -1
    else 0
  }

  /** `compareTo` is a total order on items by index: antisymmetric, transitive and total. */
  lemma CompareToIsTotalOrder(a: ListItem, b: ListItem, c: ListItem)
    ensures CompareTo(a, b) == -CompareTo(b, a)
    ensures CompareTo(a, b) <= 0 && CompareTo(b, c) <= 0 ==> CompareTo(a, c) <= 0
    ensures CompareTo(a, b) <= 0 || CompareTo(b, a) <= 0
    ensures CompareTo(a, a) == 0
  {
  }

  // ---------------------------------------------------------------------------
  // Sorting by index

  /** Ascending by `compareTo`: no item is above the one after it. */
  predicate IndexOrdered(s: seq<ListItem>) {
    forall i :: 0 < i < |s| ==> CompareTo(s[i - 1], s[i]) <= 0
  }

  /** Puts x before the first item whose index is above its own, so after every item with an equal index. */
  function InsertByIndex(s: seq<ListItem>, x: ListItem): (r: seq<ListItem>)
    ensures multiset(r) == multiset(s) + multiset{x}
    ensures |r| == |s| + 1
    ensures r[0] == if s == [] || CompareTo(x, s[0]) < 0 then x else s[0]
  {
    if s == [] then [x]
    else if CompareTo(x, s[0]) < 0 then [x] + s
    else
      assert s == [s[0]] + s[1..];
      [s[0]] + InsertByIndex(s[1..], x)
  }

  /** Inserting into an ordered list keeps it ordered. */
  lemma {:induction false} InsertKeepsOrder(s: seq<ListItem>, x: ListItem)
    requires IndexOrdered(s)
    ensures IndexOrdered(InsertByIndex(s, x))
  {
    if s != [] && CompareTo(x, s[0]) >= 0 {
      InsertKeepsOrder(s[1..], x);
    }
  }

  /** What `Arrays.sort` would leave in the list: a stable insertion sort by `compareTo`. */
  function SortByIndex(s: seq<ListItem>): (r: seq<ListItem>)
    ensures IndexOrdered(r)
    ensures multiset(r) == multiset(s)
    ensures |r| == |s|
  {
    if s == [] then []
    else
      assert s == s[..|s| - 1] + [s[|s| - 1]];
      InsertKeepsOrder(SortByIndex(s[..|s| - 1]), s[|s| - 1]);
      InsertByIndex(SortByIndex(s[..|s| - 1]), s[|s| - 1])
  }

  /** The entries' disk locations, entry by entry (`fileItem.getFile()` for each). */
  function Files(s: seq<ListItem>): (r: seq<Option<string>>)
    ensures |r| == |s| && forall k :: 0 <= k < |s| ==> r[k] == s[k].file
  {
    if s == [] then [] else Files(s[..|s| - 1]) + [s[|s| - 1].file]
  }

  /** Every index in [0, n) arrives exactly once: each download answers once, with its own index. */
  predicate OnePerIndex(s: seq<ListItem>, n: nat) {
    |s| == n &&
    (forall k :: 0 <= k < |s| ==> 0 <= s[k].index < n) &&
    (forall a, b :: 0 <= a < b < |s| ==> s[a].index != s[b].index)
  }

  /** The sorted entries of one answer per index sit at their own index. */
  lemma {:induction false} SortedEntriesSitAtTheirIndex(s: seq<ListItem>, n: nat)
    requires OnePerIndex(s, n)
    ensures forall k :: 0 <= k < n ==> SortByIndex(s)[k].index == k
  {
    var r := SortByIndex(s);
    forall j | 0 <= j < |r| ensures 0 <= r[j].index < n {
      assert r[j] in multiset(s);
    }
    forall j | 0 < j < |r| ensures r[j - 1].index < r[j].index {
      NeighboursDiffer(s, r, j);
    }
    forall k | 0 <= k < n ensures r[k].index == k {
      AtLeastPosition(r, k);
      AtMostPosition(r, n, k);
    }
  }

  /** Neighbours in a permutation of entries with distinct indices hold distinct indices. */
  lemma NeighboursDiffer(s: seq<ListItem>, r: seq<ListItem>, j: nat)
    requires multiset(r) == multiset(s) && 0 < j < |r|
    requires forall a, b :: 0 <= a < b < |s| ==> s[a].index != s[b].index
    ensures r[j - 1].index != r[j].index
  {
    assert r[j - 1] in multiset(s) && r[j] in multiset(s);
    var x :| 0 <= x < |s| && s[x] == r[j - 1];
    var y :| 0 <= y < |s| && s[y] == r[j];
    if x == y {
      OnlyOnce(s, x);
      TwiceOver(r, j);
      assert false;
    }
  }

  /** An entry of a list with distinct indices occurs in it once. */
  lemma OnlyOnce(s: seq<ListItem>, x: nat)
    requires x < |s| && forall a, b :: 0 <= a < b < |s| ==> s[a].index != s[b].index
    ensures multiset(s)[s[x]] == 1
  {
    assert s == s[..x] + [s[x]] + s[x + 1..];
    assert s[x] !in s[..x];
    assert s[x] !in s[x + 1..] by {
      forall k | x + 1 <= k < |s| ensures s[k] != s[x] {
      }
    }
  }

  /** Two equal neighbours make an entry occur twice. */
  lemma TwiceOver(r: seq<ListItem>, j: nat)
    requires 0 < j < |r| && r[j - 1] == r[j]
    ensures multiset(r)[r[j]] >= 2
  {
    assert r == r[..j - 1] + [r[j - 1], r[j]] + r[j + 1..];
  }

  lemma {:induction false} AtLeastPosition(r: seq<ListItem>, k: nat)
    requires k < |r| && 0 <= r[0].index
    requires forall j :: 0 < j < |r| ==> r[j - 1].index < r[j].index
    ensures r[k].index >= k
  {
    if k > 0 {
      AtLeastPosition(r, k - 1);
    }
  }

  lemma {:induction false} AtMostPosition(r: seq<ListItem>, n: nat, k: nat)
    requires |r| == n && k < n && r[n - 1].index < n
    requires forall j :: 0 < j < |r| ==> r[j - 1].index < r[j].index
    ensures r[k].index <= k
    decreases n - k
  {
    if k < n - 1 {
      AtMostPosition(r, n, k + 1);
    }
  }

  // ---------------------------------------------------------------------------
  // The delivered list

  /** As written: the entries' files in the order their callbacks arrived. */
  function ArrivalFiles(arrivals: seq<ListItem>): (r: seq<Option<string>>)
    ensures |r| == |arrivals| && forall k :: 0 <= k < |r| ==> r[k] == arrivals[k].file
  {
    Files(arrivals)
  }

  /** As intended: the entries' files in ascending index order, each one some entry's file. */
  function DeliveredFiles(arrivals: seq<ListItem>): (r: seq<Option<string>>)
    ensures |r| == |arrivals|
    ensures forall k :: 0 <= k < |r| ==> exists j :: 0 <= j < |arrivals| && r[k] == arrivals[j].file
  {
    var t := SortByIndex(arrivals);
    var r := Files(t);
    assert forall k :: 0 <= k < |r| ==> r[k] == t[k].file && t[k] in multiset(arrivals);
    r
  }

  /** With one answer per index, the intended list holds file k's disk location at position k. */
  lemma DeliveredFilesInRequestOrder(arrivals: seq<ListItem>, n: nat)
    requires OnePerIndex(arrivals, n)
    ensures forall j :: 0 <= j < n ==> DeliveredFiles(arrivals)[arrivals[j].index] == arrivals[j].file
  {
    SortedEntriesSitAtTheirIndex(arrivals, n);
    var r := SortByIndex(arrivals);
    forall j | 0 <= j < n ensures DeliveredFiles(arrivals)[arrivals[j].index] == arrivals[j].file {
      var k := arrivals[j].index;
      assert r[k] in multiset(arrivals);
      var j' :| 0 <= j' < n && arrivals[j'] == r[k];
      assert arrivals[j'].index == k;
      assert j' == j;
    }
  }

  /** When the callbacks arrive in index order, the as-written list and the intended one agree. */
  lemma InOrderArrivalsAgree(arrivals: seq<ListItem>, n: nat)
    requires OnePerIndex(arrivals, n) && forall k :: 0 <= k < n ==> arrivals[k].index == k
    ensures ArrivalFiles(arrivals) == DeliveredFiles(arrivals)
  {
    DeliveredFilesInRequestOrder(arrivals, n);
  }

  /** Two callbacks arriving out of order: the as-written list is in arrival order, the intended one in index order. */
  lemma ArrivalOrderIsNotIndexOrder()
    ensures var a := [ListItem(1, Some("b")), ListItem(0, Some("a"))];
      OnePerIndex(a, 2) &&
      ArrivalFiles(a) == [Some("b"), Some("a")] &&
      DeliveredFiles(a) == [Some("a"), Some("b")]
  {
    var a := [ListItem(1, Some("b")), ListItem(0, Some("a"))];
    assert a[..1] == [a[0]];
    assert SortByIndex([a[0]]) == [a[0]] by {
      assert [a[0]][..0] == [];
    }
    assert SortByIndex(a) == [a[1], a[0]];
  }

  // ---------------------------------------------------------------------------
  // The batch's callbacks on values

  /**
   * The lists a batch of n files hands to its listener after the callbacks
   * `arrivals` (in arrival order): one list, when the n-th callback arrives.
   */
  function Fired(n: nat, arrivals: seq<ListItem>): (r: seq<seq<Option<string>>>)
    ensures |r| <= 1
  {
    if arrivals == [] then []
    else if |arrivals| == n then [ArrivalFiles(arrivals)]
    else if |arrivals| < n then []
    else Fired(n, arrivals[..n])
  }

  /** A batch fires exactly once, when all n callbacks have arrived, with one entry per file; an empty list never fires. */
  lemma {:induction false} FiresOnceWhenAllArrived(n: nat, arrivals: seq<ListItem>)
    ensures n == 0 ==> Fired(n, arrivals) == []
    ensures n > 0 && |arrivals| < n ==> Fired(n, arrivals) == []
    ensures n > 0 && |arrivals| >= n ==> Fired(n, arrivals) == [ArrivalFiles(arrivals[..n])] && |Fired(n, arrivals)[0]| == n
  {
    if n > 0 && |arrivals| > n {
      assert arrivals[..n][..n] == arrivals[..n];
    } else if n > 0 && |arrivals| == n {
      assert arrivals[..n] == arrivals;
    }
  }

  /** One more callback fires the listener exactly when it brings the count to n, whatever came before. */
  lemma {:induction false} FiredStep(n: nat, arrivals: seq<ListItem>, x: ListItem)
    ensures Fired(n, arrivals + [x]) ==
      Fired(n, arrivals) + (if |arrivals| + 1 == n then [ArrivalFiles(arrivals + [x])] else [])
  {
    var a := arrivals + [x];
    if n > 0 && |a| > n {
      assert a[..n] == arrivals[..n];
      if |arrivals| > n {
        assert arrivals[..n][..n] == arrivals[..n];
      }
    }
  }

  /** `new SAFileListDownloader(context)` starts with the no-op listener; a null listener argument keeps the one before. */
  function NextListener(previous: ListListener, given: Option<ListListener>): (r: ListListener)
    ensures given.Some? ==> r == given.value
    ensures given.None? ==> r == previous
  {
    if given.Some? then given.value else previous
  }

  /** The downloads `downloadListOfFiles(files)` issues: one per index, for that index's file. */
  function Requests(files: seq<Option<string>>): (r: seq<(nat, Option<string>)>)
    ensures |r| == |files| && forall i :: 0 <= i < |r| ==> r[i] == (i, files[i])
  {
    seq(|files|, i requires 0 <= i < |files| => (i, files[i]))
  }

  // ---------------------------------------------------------------------------
  // The classes

  /** `SAFileListDownloader`: its listener, the downloads it asked for, and its listener's calls. */
  class FileListDownloader {
    var listener: ListListener
    var requests: seq<(nat, Option<string>)>
    var deliveries: seq<Delivery>

    /** A new downloader has the no-op listener and has done nothing yet. */
    constructor ()
      ensures listener == Silent && requests == [] && deliveries == []
    {
      listener, requests, deliveries := Silent, [], [];
    }

    /**
     * `downloadListOfFiles(files, listener)`: keep the listener (or the
     * previous one if null), issue one download per index, and return the
     * batch the callbacks of those downloads report to.
     */
    method DownloadListOfFiles(files: seq<Option<string>>, l: Option<ListListener>) returns (batch: Batch)
      modifies this`listener, this`requests
      ensures listener == NextListener(old(listener), l)
      ensures requests == old(requests) + Requests(files)
      ensures deliveries == old(deliveries)
      ensures fresh(batch) && batch.owner == this && batch.max == |files|
      ensures batch.count == 0 && batch.collected == []
    {
      listener := if l.Some? then l.value else listener;
      batch := new Batch(this, |files|);
      var i := 0;
      while i < |files|
        invariant 0 <= i <= |files|
        invariant requests == old(requests) + Requests(files)[..i]
        invariant listener == NextListener(old(listener), l) && deliveries == old(deliveries)
        invariant batch.count == 0 && batch.collected == []
      {
        requests := requests + [(i, files[i])];
        i := i + 1;
      }
      assert Requests(files)[..i] == Requests(files);
    }
  }

  /**
   * The state the callbacks of one `downloadListOfFiles` call share: the
   * number of files, the counter `totalFilesDownloaded[0]` and the list
   * `filesDownloaded`; the final listener is read from the downloader when
   * the last callback arrives.
   */
  class Batch {
    const owner: FileListDownloader
    const max: nat
    var count: int
    var collected: seq<ListItem>

    /** Counts every callback it has had. */
    ghost predicate Valid()
      reads this
    {
      count == |collected|
    }

    constructor (owner: FileListDownloader, max: nat)
      ensures this.owner == owner && this.max == max && count == 0 && collected == [] && Valid()
    {
      this.owner, this.max := owner, max;
      count, collected := 0, [];
    }

    /**
     * `didDownloadFileAtIndex(index, success, diskUrl)`: record the entry
     * (a failed file's null location included), count it, and on the
     * max-th callback give the downloader's listener the files in the order
     * their callbacks arrived.
     */
    method DidDownloadFileAtIndex(index: int, success: bool, diskUrl: Option<string>)
      requires Valid()
      modifies this`count, this`collected, owner`deliveries
      ensures Valid()
      ensures collected == old(collected) + [ListItem(index, diskUrl)]
      ensures owner.deliveries ==
        old(owner.deliveries) + (if count == max then [Delivery(owner.listener, ArrivalFiles(collected))] else [])
      ensures Fired(max, collected) ==
        Fired(max, old(collected)) + (if count == max then [ArrivalFiles(collected)] else [])
    {
      FiredStep(max, collected, ListItem(index, diskUrl));
      collected := collected + [ListItem(index, diskUrl)];
      count := count + 1;
      if count == max {
        // `Arrays.sort(filesDownloaded.toArray())` sorts a copy: the list stays in arrival order
        var finalFiles := FileLocations(collected);
        owner.deliveries := owner.deliveries + [Delivery(owner.listener, finalFiles)];
      }
    }
  }

  /** The for-loop that turns the entries into their disk locations, one by one and in order. */
  method FileLocations(items: seq<ListItem>) returns (files: seq<Option<string>>)
    ensures files == Files(items)
    ensures |files| == |items| && forall k :: 0 <= k < |items| ==> files[k] == items[k].file
  {
    files := [];
    var k := 0;
    while k < |items|
      invariant 0 <= k <= |items|
      invariant files == Files(items[..k])
    {
      assert items[..k + 1][..k] == items[..k];
      files := files + [items[k].file];
      k := k + 1;
    }
    assert items[..k] == items;
  }
}
