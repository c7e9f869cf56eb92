/**
 * The in-place list of pending downloads (SADownloadQueue, and its copy
 * SAFileQueue, which has the same code over SAFileItem).
 *
 * Items are compared by reference, as `List.remove(Object)` does for a class
 * that does not override `equals`. A lookup by URL calls `getUrlKey().equals`
 * on every item it passes, so an item with a null URL key makes it throw; the
 * lookups report that as `NullKey` rather than excluding it.
 */
module Queues {
  import opened JavaLang
  import opened Items

  // ---------------------------------------------------------------------------
  // The queue's behaviour on values

  /** The outcome of scanning the queue for a URL. */
  datatype Scan = Hit(index: nat) | Miss | NullKey

  /** Every queued item has a URL key. */
  ghost predicate AllKeyed(vals: seq<ItemVal>) {
    forall j :: 0 <= j < |vals| ==> vals[j].urlKey.Some?
  }

  /** `k` is a URL key of none of the first i items, all of which have a key. */
  ghost predicate PassedOver(vals: seq<ItemVal>, url: Option<string>, i: nat)
    requires i <= |vals|
  {
    forall j :: 0 <= j < i ==> vals[j].urlKey.Some? && vals[j].urlKey != url
  }

  /**
   * The for-loop of `hasItemForURL` and `itemForURL`: front to back, stop at the
   * first item whose key equals url, throw at the first item with no key.
   */
  ghost function ScanFor(vals: seq<ItemVal>, url: Option<string>): (r: Scan)
    ensures r.Hit? ==> r.index < |vals| && vals[r.index].urlKey == url && PassedOver(vals, url, r.index)
    ensures r.Miss? ==> PassedOver(vals, url, |vals|)
    ensures r.NullKey? ==> exists j :: 0 <= j < |vals| && vals[j].urlKey == None && PassedOver(vals, url, j)
  {
    if vals == [] then Miss
    else if vals[0].urlKey == None then NullKey
    else if vals[0].urlKey == url then Hit(0)
    else
      match ScanFor(vals[1..], url)
      case Hit(i) =>
        assert forall j :: 1 <= j <= i ==> vals[j] == vals[1..][j - 1];
        Hit(i + 1)
      case Miss =>
        assert forall j :: 1 <= j < |vals| ==> vals[j] == vals[1..][j - 1];
        Miss
      case NullKey =>
        var j :| 0 <= j < |vals[1..]| && vals[1..][j].urlKey == None && PassedOver(vals[1..], url, j);
        assert forall m :: 1 <= m <= j ==> vals[m] == vals[1..][m - 1];
        assert vals[j + 1].urlKey == None && PassedOver(vals, url, j + 1);
        NullKey
  }

  /**
   * With every key present the scan never throws, it finds the url exactly
   * when some item carries it, and what it finds is the first such item.
   */
  lemma ScanOfKeyedQueue(vals: seq<ItemVal>, url: Option<string>)
    requires AllKeyed(vals)
    ensures ScanFor(vals, url) != NullKey
    ensures ScanFor(vals, url).Hit? <==> exists i :: 0 <= i < |vals| && vals[i].urlKey == url
    ensures ScanFor(vals, url).Hit? ==>
      forall j :: 0 <= j < ScanFor(vals, url).index ==> vals[j].urlKey != url
  {
  }

  /** Which position a scan that has passed over the first i items ends at. */
  ghost function Shift(r: Scan, i: nat): Scan {
    if r.Hit? then Hit(r.index + i) else r
  }

  /** Scanning can resume after items it has passed over. */
  lemma {:induction false} ScanResumes(vals: seq<ItemVal>, url: Option<string>, i: nat)
    requires i <= |vals| && PassedOver(vals, url, i)
    ensures ScanFor(vals, url) == Shift(ScanFor(vals[i..], url), i)
  {
    if i > 0 {
      assert vals[0].urlKey.Some? && vals[0].urlKey != url;
      assert PassedOver(vals[1..], url, i - 1) by {
        forall j | 0 <= j < i - 1 ensures vals[1..][j].urlKey.Some? && vals[1..][j].urlKey != url {
          assert vals[1..][j] == vals[j + 1];
        }
      }
      ScanResumes(vals[1..], url, i - 1);
      assert vals[1..][i - 1..] == vals[i..];
    }
  }

  /** `getNext`: the position of the first item not on disk, if any. */
  ghost function FirstPending(vals: seq<ItemVal>): (r: Option<nat>)
    ensures r.Some? ==> r.value < |vals| && !vals[r.value].onDisk
    ensures r.Some? ==> forall j :: 0 <= j < r.value ==> vals[j].onDisk
    ensures r.None? ==> forall j :: 0 <= j < |vals| ==> vals[j].onDisk
  {
    if vals == [] then None
    else if !vals[0].onDisk then Some(0)
    else
      match FirstPending(vals[1..])
      case Some(i) =>
        assert forall j :: 1 <= j <= i ==> vals[j] == vals[1..][j - 1];
        Some(i + 1)
      case None =>
        assert forall j :: 1 <= j < |vals| ==> vals[j] == vals[1..][j - 1];
        None
  }

  /** The first i items are on disk and the next one is not (or there is none). */
  lemma FirstPendingAt(vals: seq<ItemVal>, i: nat)
    requires i <= |vals|
    requires forall j :: 0 <= j < i ==> vals[j].onDisk
    requires i < |vals| ==> !vals[i].onDisk
    ensures FirstPending(vals) == if i < |vals| then Some(i) else None
  {
    var f := FirstPending(vals);
    if f.Some? {
      assert f.value >= i;
      assert f.value <= i;
    }
  }

  /** The position of the first occurrence of x in s. */
  function IndexOf<T(==)>(s: seq<T>, x: T): (i: nat)
    requires x in s
    ensures i < |s| && s[i] == x && x !in s[..i]
  {
    if s[0] == x then 0 else 1 + IndexOf(s[1..], x)
  }

  /** `List.remove(Object)`: the first occurrence of x taken out, or s unchanged when x is absent. */
  function RemoveFirst<T(==)>(s: seq<T>, x: T): (r: seq<T>)
    ensures x !in s ==> r == s
    ensures x in s ==> r == s[..IndexOf(s, x)] + s[IndexOf(s, x) + 1..]
  {
    if x in s then s[..IndexOf(s, x)] + s[IndexOf(s, x) + 1..] else s
  }

  /** `moveToBackOfQueue` on values: take x out, then append it. */
  function MoveToBack<T(==)>(s: seq<T>, x: T): seq<T> {
    RemoveFirst(s, x) + [x]
  }

  /** Removing x loses exactly one copy of x and nothing else, and keeps the order of the rest. */
  lemma RemoveFirstLosesOneCopy<T>(s: seq<T>, x: T)
    ensures multiset(RemoveFirst(s, x)) == multiset(s) - multiset{x}
    ensures |RemoveFirst(s, x)| == if x in s then |s| - 1 else |s|
    ensures forall y :: y != x ==> (y in RemoveFirst(s, x) <==> y in s)
  {
    var r := RemoveFirst(s, x);
    if x in s {
      var i := IndexOf(s, x);
      assert s == s[..i] + [x] + s[i + 1..];
      assert multiset(s) == multiset(s[..i]) + multiset{x} + multiset(s[i + 1..]);
    } else {
      assert multiset(s)[x] == 0;
    }
    forall y | y != x ensures y in r <==> y in s {
      assert multiset(r)[y] == multiset(s)[y];
    }
  }

  /**
   * Moving an item that is queued once to the back keeps the same items, puts
   * it last, and keeps everyone else in their old relative order.
   */
  lemma MoveToBackRotates<T>(s: seq<T>, x: T)
    requires multiset(s)[x] == 1
    ensures multiset(MoveToBack(s, x)) == multiset(s)
    ensures |MoveToBack(s, x)| == |s| && MoveToBack(s, x)[|s| - 1] == x
    ensures MoveToBack(s, x)[..|s| - 1] == s[..IndexOf(s, x)] + s[IndexOf(s, x) + 1..]
    ensures x !in MoveToBack(s, x)[..|s| - 1]
  {
    assert x in s;
    RemoveFirstLosesOneCopy(s, x);
    var r := RemoveFirst(s, x);
    var m := MoveToBack(s, x);
    assert m == r + [x] && |r| == |s| - 1;
    assert m[..|s| - 1] == r;
    assert multiset(m) == multiset(r) + multiset{x};
    assert multiset(r)[x] == 0 && x !in r;
  }

  // ---------------------------------------------------------------------------
  // The queue object

  class DownloadQueue {
    var items: seq<DownloadItem>

    /** A fresh queue is empty. */
    constructor ()
      ensures items == []
    {
      items := [];
    }

    /** `addToQueue`: a non-null item is appended; null is ignored. */
    method AddToQueue(item: DownloadItem?)
      modifies this`items
      ensures items == old(items) + (if item != null then [item] else [])
    {
      if item != null {
        items := items + [item];
      }
    }

    /** `removeFromQueue`: the first occurrence of a non-null item is taken out; null is ignored. */
    method RemoveFromQueue(item: DownloadItem?)
      modifies this`items
      ensures items == if item == null then old(items) else RemoveFirst(old(items), item)
    {
      if item != null {
        if item in items {
          var i := IndexOf(items, item);
          items := items[..i] + items[i + 1..];
        }
      }
    }

    /** `moveToBackOfQueue`: remove, then add. */
    method MoveToBackOfQueue(item: DownloadItem?)
      modifies this`items
      ensures items == if item == null then old(items) else MoveToBack(old(items), item)
    {
      RemoveFromQueue(item);
      AddToQueue(item);
    }

    /** `hasItemForURL`: whether some item has this URL key, or `npe` if the scan met a null key first. */
    method HasItemForUrl(url: Option<string>) returns (found: bool, npe: bool)
      ensures npe <==> ScanFor(ValsOf(items), url) == NullKey
      ensures found <==> ScanFor(ValsOf(items), url).Hit?
    {
      var r := ScanItems(url);
      found, npe := r.Hit?, r.NullKey?;
    }

    /** `itemForURL`: the first item with this URL key, null if none, or `npe` if the scan met a null key first. */
    method ItemForUrl(url: Option<string>) returns (item: DownloadItem?, npe: bool)
      ensures npe <==> ScanFor(ValsOf(items), url) == NullKey
      ensures item != null <==> ScanFor(ValsOf(items), url).Hit?
      ensures item != null ==> item == items[ScanFor(ValsOf(items), url).index] && item.urlKey == url
    {
      var r := ScanItems(url);
      npe := r.NullKey?;
      item := if r.Hit? then items[r.index] else null;
    }

    /** The for-loop both lookups share. */
    method ScanItems(url: Option<string>) returns (r: Scan)
      ensures r == ScanFor(ValsOf(items), url)
    {
      var i := 0;
      while i < |items|
        invariant 0 <= i <= |items|
        invariant PassedOver(ValsOf(items), url, i)
      {
        var key := items[i].urlKey;
        if key == None || key == url {
          ScanResumes(ValsOf(items), url, i);
          assert ValsOf(items)[i..][0] == items[i].Val();
          return if key == None then NullKey else Hit(i);
        }
        i := i + 1;
      }
      ScanResumes(ValsOf(items), url, i);
      return Miss;
    }

    /** `getNext`: the first item not on disk, or null. */
    method GetNext() returns (item: DownloadItem?)
      ensures FirstPending(ValsOf(items)).None? ==> item == null
      ensures FirstPending(ValsOf(items)).Some? ==> item == items[FirstPending(ValsOf(items)).value]
    {
      var i := 0;
      while i < |items|
        invariant 0 <= i <= |items|
        invariant forall j :: 0 <= j < i ==> items[j].onDisk
      {
        if !items[i].onDisk {
          FirstPendingAt(ValsOf(items), i);
          return items[i];
        }
        i := i + 1;
      }
      FirstPendingAt(ValsOf(items), i);
      return null;
    }

    /** `getLength`: the number of queued items. */
    method GetLength() returns (n: nat)
      ensures n == |items|
    {
      n := |items|;
    }
  }
}
