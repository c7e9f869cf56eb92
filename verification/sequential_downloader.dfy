/**
 * SASequentialFileDownloader: the same single-flight download queue as
 * SAFileDownloader, driven by a genuinely asynchronous task.
 *
 * `downloadFileFrom` answers or joins a queued URL and otherwise queues a new
 * item (with no validity check) and runs `checkOnQueue`. `checkOnQueue` gives
 * an item its disk location and key the first time it picks it, gives up items
 * with no retries left, and starts one download for the first item that has
 * some. The task reports back through `onFinish(result)` or `onError()`, and
 * each of those runs `checkOnQueue` again. A download in flight is therefore
 * a state of the downloader, and the async task's report is an event sent to it.
 *
 * Two exceptions are part of the state. Reading the key back from a fresh
 * disk location throws when the regular-expression split leaves no piece;
 * the exception leaves `checkOnQueue` with the location set, and `thrown`
 * counts it. And when the context is null, the async task cannot start: its
 * constructor catches the NullPointerException and calls `onError()` at once.
 *
 * The random numbers of `getDiskLocation` are the function `random`: the k-th
 * disk location of this downloader's life uses `random(k)`.
 */
module SequentialDownloads {
  import opened JavaLang
  import opened Naming
  import opened Items
  import opened Queues
  import opened Downloads

  /** A draw of `new Random().nextInt(65548)`. */
  type Token = n: nat | n < DiskNameBound

  /**
   * The downloader's state on values; `inFlight` is the position of the item
   * being downloaded, if any, and `thrown` counts the exceptions that left
   * `checkOnQueue`.
   */
  datatype State = State(
    queue: seq<ItemVal>,
    inFlight: Option<nat>,
    store: Store,
    files: set<string>,
    log: seq<Event>,
    draws: nat,
    thrown: nat)

  /** A listener argument as a list of waiters: null adds nobody. */
  function Present(l: Option<Listener>): seq<Listener> {
    if l.Some? then [l.value] else []
  }

  /** The item `downloadFileFrom` creates: URL key and extension set, the listener waiting unless null, nothing else. */
  function Fresh(url: Option<string>, ext: Option<string>, l: Option<Listener>): ItemVal {
    ItemVal(url, None, None, None, ext, false, 0, Present(l))
  }

  /** An item given a disk location and the key read back from it; when the read throws, the key stays as it was. */
  function WithLocation(v: ItemVal, loc: string): ItemVal {
    var read := KeyOfDiskLocation(loc, v.ext);
    v.(diskUrl := Some(loc), key := if read.Some? then read else v.key)
  }

  /** The item at i may be the one in flight: queued, not on disk, retries left, disk location set. */
  ghost predicate Fetchable(q: seq<ItemVal>, i: nat) {
    i < |q| && !q[i].onDisk && q[i].HasRetriesRemaining() && q[i].diskUrl.Some?
  }

  /** What holds of the downloader at every step: one item per URL, retries bounded, no waiter on a finished item, and a well-formed download in flight. */
  ghost predicate Inv(s: State) {
    DistinctUrls(s.queue) && Settled(s.queue) &&
    (s.inFlight.Some? ==> Fetchable(s.queue, s.inFlight.value))
  }

  /** Between calls `checkOnQueue` has nothing left to do: a download is in flight, or no queued item is waiting to be fetched. */
  ghost predicate Ready(s: State) {
    s.inFlight.Some? || FirstPending(s.queue).None?
  }

  /** Every queued item has an extension the key read-back handles as meant. */
  ghost predicate PlainExts(q: seq<ItemVal>) {
    forall v :: v in q ==> PlainExt(v.ext)
  }

  /** A store holding a value that is not a string, on which `getString` throws ClassCastException. */
  ghost predicate HoldsNonString(store: Store) {
    exists k :: k in store && store[k].Other?
  }

  /** The cleanup run to the end: every string entry leaves the store and its file is deleted. */
  ghost function Cleaned(s: State): State {
    s.(store := WithoutText(s.store), files := s.files - FileNames(s.store))
  }

  /**
   * Picking the item at i: an item without a disk location draws the next
   * token n and gets the location "samov_" + n + "." + ext and the key read
   * back from it; an item that has one keeps it.
   */
  ghost function Pick(s: State, i: nat, random: nat -> Token): (r: State)
    requires i < |s.queue|
    ensures |r.queue| == |s.queue| && r.inFlight == s.inFlight && r.thrown == s.thrown
  {
    var it := s.queue[i];
    if it.diskUrl.Some? then s
    else s.(queue := s.queue[i := WithLocation(it, DiskLocation(random(s.draws), it.ext))], draws := s.draws + 1)
  }

  /** Picking the item at i draws a fresh disk location from which the key cannot be read: `c2[0]` throws. */
  ghost predicate ReadThrows(s: State, i: nat, random: nat -> Token)
    requires i < |s.queue|
  {
    s.queue[i].diskUrl.None? && KeyOfDiskLocation(DiskLocation(random(s.draws), s.queue[i].ext), s.queue[i].ext).None?
  }

  /** No retries left: every waiter gets (false, null) and the item leaves the queue. */
  ghost function GiveUp(s: State, i: nat): (r: State)
    requires i < |s.queue|
  {
    s.(queue := RemoveAt(s.queue, i), log := s.log + Notify(s.queue[i].responses, false, None))
  }

  /**
   * `checkOnQueue`: unless a download is in flight, pick the first item not on
   * disk; if reading its key throws, stop there with one more exception; if it
   * has no retries left, give it up and check again; otherwise start its
   * download. Without a context (`ctx` false) the download cannot start: the
   * task's `onError()` runs at once, requeues the item and checks again.
   */
  ghost function Check(s: State, random: nat -> Token, ctx: bool): (r: State)
    ensures r.thrown == s.thrown ==> Ready(r)
    ensures r.thrown == s.thrown || r.thrown == s.thrown + 1
    ensures !ctx ==> r.inFlight == s.inFlight
    decreases Sum(s.queue, AttemptsLeft), |s.queue|
  {
    if s.inFlight.Some? || FirstPending(s.queue).None? then s
    else
      var i := FirstPending(s.queue).value;
      var t := Pick(s, i, random);
      PickKeepsWaitersAndAttempts(s, i, random);
      if ReadThrows(s, i, random) then t.(thrown := t.thrown + 1)
      else if !t.queue[i].HasRetriesRemaining() then
        SumRemove(t.queue, i, AttemptsLeft);
        Check(GiveUp(t, i), random, ctx)
      else if ctx then t.(inFlight := Some(i))
      else
        SumMove(t.queue, i, Retried(t.queue[i]), AttemptsLeft);
        Check(Requeued(t.(inFlight := Some(i))), random, ctx)
  }

  /**
   * `onFinish(true)` before its `checkOnQueue`: the store maps the key (null
   * if it was never read) to the disk location, the file exists, every waiter
   * gets (true, diskUrl) in list order, and the item is on disk with nobody
   * waiting.
   */
  ghost function Downloaded(s: State): (r: State)
    requires s.inFlight.Some? && Fetchable(s.queue, s.inFlight.value)
  {
    var i := s.inFlight.value;
    var it := s.queue[i];
    s.(queue := s.queue[i := it.(onDisk := true, responses := [])],
       inFlight := None,
       store := s.store[it.key := Text(it.diskUrl.value)],
       files := s.files + {it.diskUrl.value},
       log := s.log + Notify(it.responses, true, it.diskUrl))
  }

  /** `onFinish(false)` and `onError()` before their `checkOnQueue`: one more retry, not on disk, moved to the back. */
  ghost function Requeued(s: State): (r: State)
    requires s.inFlight.Some? && s.inFlight.value < |s.queue|
  {
    var i := s.inFlight.value;
    s.(queue := MoveAt(s.queue, i, Retried(s.queue[i])), inFlight := None)
  }

  /**
   * The download task's result reaching the downloader: SAAsyncTask hands a
   * non-null result to `onFinish` and a null one (the async task's answer to a status
   * other than 200) to `onError`; both run `checkOnQueue` afterwards, with the
   * context the download was started with.
   */
  ghost function Complete(s: State, result: Option<bool>, random: nat -> Token): (r: State)
    requires s.inFlight.Some? && Fetchable(s.queue, s.inFlight.value)
  {
    Check(Handled(s, result), random, true)
  }

  /** The result's own handling, before `checkOnQueue`: `onFinish(true)` or the failure path. */
  ghost function Handled(s: State, result: Option<bool>): (r: State)
    requires s.inFlight.Some? && Fetchable(s.queue, s.inFlight.value)
  {
    if result == Some(true) then Downloaded(s) else Requeued(s)
  }

  /**
   * `downloadFileFrom` after the cleanup: the scan of the queue throws at an
   * item with a null URL key (nothing changes); a queued URL is answered
   * (true, diskUrl) if on disk and otherwise joins the item's waiters; an
   * unqueued one becomes a new item at the back, and the queue is checked.
   */
  ghost function Request(s: State, url: Option<string>, ext: Option<string>, l: Option<Listener>, random: nat -> Token, ctx: bool): (r: State)
  {
    match ScanFor(s.queue, url)
    case NullKey => s
    case Hit(i) =>
      var it := s.queue[i];
      if it.onDisk then s.(log := s.log + Notify(Present(l), true, it.diskUrl))
      else s.(queue := s.queue[i := it.(responses := it.responses + Present(l))])
    case Miss => Check(s.(queue := s.queue + [Fresh(url, ext, l)]), random, ctx)
  }

  // ---------------------------------------------------------------------------
  // Naming an item

  /**
   * Picking changes at most the disk location and key of the item at i, an
   * item once located is never renamed, and a read that throws leaves the key
   * as it was.
   */
  lemma PickKeepsStatus(s: State, i: nat, random: nat -> Token)
    requires i < |s.queue|
    ensures var r := Pick(s, i, random); var v := r.queue[i]; var u := s.queue[i];
      r.queue == s.queue[i := v] &&
      r.inFlight == s.inFlight && r.store == s.store && r.files == s.files && r.log == s.log && r.thrown == s.thrown &&
      v.urlKey == u.urlKey && v.onDisk == u.onDisk && v.retries == u.retries && v.responses == u.responses &&
      v.ext == u.ext && v.diskUrl.Some? && (ReadThrows(s, i, random) ==> v.key == u.key) &&
      (u.diskUrl.Some? ==> r == s)
  {
  }

  /**
   * The first time an item is picked it draws one token n and gets the disk
   * location "samov_" + n + "." + ext. With a plain extension the read does
   * not throw and the key is the decimal text of n, which reads back as n;
   * with the empty extension the read throws and the key stays unset.
   */
  lemma PickedKeyIsToken(s: State, i: nat, random: nat -> Token)
    requires i < |s.queue| && s.queue[i].diskUrl.None?
    ensures var v := Pick(s, i, random).queue[i]; var n := random(s.draws);
      Pick(s, i, random).draws == s.draws + 1 &&
      v.diskUrl == Some(DiskLocation(n, s.queue[i].ext)) &&
      (PlainExt(s.queue[i].ext) ==> !ReadThrows(s, i, random) && v.key == Some(Decimal(n)) && DecimalValue(v.key.value) == n) &&
      (s.queue[i].ext == Some("") ==> ReadThrows(s, i, random) && v.key == s.queue[i].key)
  {
    if PlainExt(s.queue[i].ext) {
      SequentialKeyIsToken(random(s.draws), s.queue[i].ext);
    }
    if s.queue[i].ext == Some("") {
      EmptyExtensionThrows(random(s.draws));
    }
  }

  /**
   * Checking right after a pick that did not throw checks the same item, now
   * located and with the same attempts left, to the same end.
   */
  lemma PickThenCheck(s: State, i: nat, random: nat -> Token, ctx: bool)
    requires s.inFlight.None? && FirstPending(s.queue) == Some(i) && !ReadThrows(s, i, random)
    ensures var t := Pick(s, i, random);
      t.inFlight.None? && FirstPending(t.queue) == Some(i) && t.queue[i].diskUrl.Some? &&
      Sum(t.queue, AttemptsLeft) == Sum(s.queue, AttemptsLeft)
    ensures Check(Pick(s, i, random), random, ctx) == Check(s, random, ctx)
  {
    PickKeepsStatus(s, i, random);
    PickKeepsWaitersAndAttempts(s, i, random);
    var t := Pick(s, i, random);
    FirstPendingAt(t.queue, i);
    PickKeepsStatus(t, i, random);
  }

  /** A located pending item with retries left is started, or, without a context, requeued at once. */
  lemma CheckStarts(s: State, i: nat, random: nat -> Token, ctx: bool)
    requires s.inFlight.None? && FirstPending(s.queue) == Some(i) && s.queue[i].diskUrl.Some? && s.queue[i].HasRetriesRemaining()
    ensures Check(s, random, ctx) ==
      if ctx then s.(inFlight := Some(i)) else Check(Requeued(s.(inFlight := Some(i))), random, ctx)
  {
  }

  /** A located pending item with no retries left is given up, and the queue checked again. */
  lemma CheckGivesUp(s: State, i: nat, random: nat -> Token, ctx: bool)
    requires s.inFlight.None? && FirstPending(s.queue) == Some(i) && s.queue[i].diskUrl.Some? && !s.queue[i].HasRetriesRemaining()
    ensures Check(s, random, ctx) == Check(GiveUp(s, i), random, ctx)
  {
  }

  /** A read that throws ends the check with the item located. */
  lemma CheckThrows(s: State, i: nat, random: nat -> Token, ctx: bool)
    requires s.inFlight.None? && FirstPending(s.queue) == Some(i) && ReadThrows(s, i, random)
    ensures Check(s, random, ctx) == Pick(s, i, random).(thrown := s.thrown + 1)
  {
  }

  lemma PickPreservesInvariant(s: State, i: nat, random: nat -> Token)
    requires Inv(s) && i < |s.queue|
    ensures Inv(Pick(s, i, random))
    ensures Pick(s, i, random).queue[i].diskUrl.Some?
  {
    PickKeepsStatus(s, i, random);
    var v := Pick(s, i, random).queue[i];
    DistinctUrlsUpdate(s.queue, i, v);
    ElementsOfUpdate(s.queue, i, v);
  }

  lemma PickKeepsWaitersAndAttempts(s: State, i: nat, random: nat -> Token)
    requires i < |s.queue|
    ensures Waiting(Pick(s, i, random).queue) == Waiting(s.queue)
    ensures Pick(s, i, random).log == s.log
    ensures Sum(Pick(s, i, random).queue, AttemptsLeft) == Sum(s.queue, AttemptsLeft)
  {
    PickKeepsStatus(s, i, random);
    var v := Pick(s, i, random).queue[i];
    UpdateKeepsWaiters(s.queue, i, v);
    SumUpdate(s.queue, i, v, AttemptsLeft);
  }

  /** Picking keeps every extension plain, and a plain extension never makes the read throw. */
  lemma PickKeepsPlainExts(s: State, i: nat, random: nat -> Token)
    requires i < |s.queue| && PlainExts(s.queue)
    ensures PlainExts(Pick(s, i, random).queue) && !ReadThrows(s, i, random)
  {
    var u := s.queue[i];
    assert u in s.queue;
    PickKeepsStatus(s, i, random);
    ElementsOfUpdate(s.queue, i, Pick(s, i, random).queue[i]);
    if u.diskUrl.None? {
      SequentialKeyIsToken(random(s.draws), u.ext);
    }
  }

  // ---------------------------------------------------------------------------
  // checkOnQueue

  lemma GiveUpPreservesInvariant(s: State, i: nat)
    requires Inv(s) && s.inFlight.None? && i < |s.queue|
    ensures Inv(GiveUp(s, i))
  {
    DistinctUrlsRemove(s.queue, i);
    ElementsOfMoveAt(s.queue, i, s.queue[i]);
  }

  /** `checkOnQueue` keeps one item per URL, bounded retries, no waiter on a finished item, and a well-formed download in flight. */
  lemma {:induction false} CheckPreservesInvariant(s: State, random: nat -> Token, ctx: bool)
    requires Inv(s)
    ensures Inv(Check(s, random, ctx))
    decreases Sum(s.queue, AttemptsLeft), |s.queue|
  {
    if s.inFlight.None? && FirstPending(s.queue).Some? {
      var i := FirstPending(s.queue).value;
      var t := Pick(s, i, random);
      PickKeepsStatus(s, i, random);
      PickPreservesInvariant(s, i, random);
      PickKeepsWaitersAndAttempts(s, i, random);
      if ReadThrows(s, i, random) {
      } else if !t.queue[i].HasRetriesRemaining() {
        GiveUpPreservesInvariant(t, i);
        SumRemove(t.queue, i, AttemptsLeft);
        CheckPreservesInvariant(GiveUp(t, i), random, ctx);
      } else if !ctx {
        var u := t.(inFlight := Some(i));
        RequeuedPreservesInvariant(u);
        SumMove(t.queue, i, Retried(t.queue[i]), AttemptsLeft);
        CheckPreservesInvariant(Requeued(u), random, ctx);
      }
    }
  }

  /** `checkOnQueue` loses and duplicates nobody: whoever stops waiting has been called back exactly once. */
  lemma {:induction false} CheckConservesListeners(s: State, random: nat -> Token, ctx: bool)
    ensures Waiting(Check(s, random, ctx).queue) + Called(Check(s, random, ctx).log) == Waiting(s.queue) + Called(s.log)
    decreases Sum(s.queue, AttemptsLeft), |s.queue|
  {
    if s.inFlight.None? && FirstPending(s.queue).Some? {
      var i := FirstPending(s.queue).value;
      var t := Pick(s, i, random);
      PickKeepsWaitersAndAttempts(s, i, random);
      if ReadThrows(s, i, random) {
      } else if !t.queue[i].HasRetriesRemaining() {
        RemoveMovesWaiters(t.queue, t.log, i, false, None);
        SumRemove(t.queue, i, AttemptsLeft);
        CheckConservesListeners(GiveUp(t, i), random, ctx);
      } else if !ctx {
        MoveKeepsWaiters(t.queue, i, Retried(t.queue[i]));
        SumMove(t.queue, i, Retried(t.queue[i]), AttemptsLeft);
        CheckConservesListeners(Requeued(t.(inFlight := Some(i))), random, ctx);
      }
    }
  }

  /**
   * `checkOnQueue` with a context uses up no attempt: it only gives up items
   * that have none left. Without one it can only use attempts up.
   */
  lemma {:induction false} CheckKeepsAttempts(s: State, random: nat -> Token, ctx: bool)
    ensures Sum(Check(s, random, ctx).queue, AttemptsLeft) <= Sum(s.queue, AttemptsLeft)
    ensures ctx ==> Sum(Check(s, random, ctx).queue, AttemptsLeft) == Sum(s.queue, AttemptsLeft)
    decreases Sum(s.queue, AttemptsLeft), |s.queue|
  {
    if s.inFlight.None? && FirstPending(s.queue).Some? {
      var i := FirstPending(s.queue).value;
      var t := Pick(s, i, random);
      PickKeepsWaitersAndAttempts(s, i, random);
      if ReadThrows(s, i, random) {
      } else if !t.queue[i].HasRetriesRemaining() {
        SumRemove(t.queue, i, AttemptsLeft);
        CheckKeepsAttempts(GiveUp(t, i), random, ctx);
      } else if !ctx {
        SumMove(t.queue, i, Retried(t.queue[i]), AttemptsLeft);
        CheckKeepsAttempts(Requeued(t.(inFlight := Some(i))), random, ctx);
      }
    }
  }

  /** `after` is `before` followed by (false, null) calls only. */
  ghost predicate FailuresAfter(before: seq<Event>, after: seq<Event>) {
    before <= after && forall k :: |before| <= k < |after| ==> !after[k].success && after[k].diskUrl.None?
  }

  lemma FailuresAfterChain(a: seq<Event>, b: seq<Event>, c: seq<Event>)
    requires FailuresAfter(a, b) && FailuresAfter(b, c)
    ensures FailuresAfter(a, c)
  {
    forall k | |a| <= k < |b| ensures c[k] == b[k] { }
  }

  lemma FailuresOfGiveUp(s: State, i: nat)
    requires i < |s.queue|
    ensures FailuresAfter(s.log, GiveUp(s, i).log)
  {
  }

  /** `checkOnQueue` only ever reports failures: the log grows by (false, null) calls and nothing else. */
  lemma {:induction false} CheckOnlyReportsFailures(s: State, random: nat -> Token, ctx: bool)
    ensures FailuresAfter(s.log, Check(s, random, ctx).log)
    decreases Sum(s.queue, AttemptsLeft), |s.queue|
  {
    if s.inFlight.None? && FirstPending(s.queue).Some? {
      var i := FirstPending(s.queue).value;
      var t := Pick(s, i, random);
      PickKeepsWaitersAndAttempts(s, i, random);
      PickKeepsStatus(s, i, random);
      if ReadThrows(s, i, random) {
      } else if !t.queue[i].HasRetriesRemaining() {
        var g := GiveUp(t, i);
        SumRemove(t.queue, i, AttemptsLeft);
        CheckOnlyReportsFailures(g, random, ctx);
        FailuresOfGiveUp(t, i);
        FailuresAfterChain(s.log, g.log, Check(g, random, ctx).log);
      } else if !ctx {
        SumMove(t.queue, i, Retried(t.queue[i]), AttemptsLeft);
        CheckOnlyReportsFailures(Requeued(t.(inFlight := Some(i))), random, ctx);
      }
    }
  }

  /** Plain extensions make `checkOnQueue` throw nothing, and stay plain. */
  lemma {:induction false} CheckWithPlainExts(s: State, random: nat -> Token, ctx: bool)
    requires PlainExts(s.queue)
    ensures Check(s, random, ctx).thrown == s.thrown && PlainExts(Check(s, random, ctx).queue)
    decreases Sum(s.queue, AttemptsLeft), |s.queue|
  {
    if s.inFlight.None? && FirstPending(s.queue).Some? {
      var i := FirstPending(s.queue).value;
      var t := Pick(s, i, random);
      PickKeepsWaitersAndAttempts(s, i, random);
      PickKeepsPlainExts(s, i, random);
      if !t.queue[i].HasRetriesRemaining() {
        var g := GiveUp(t, i);
        GiveUpKeepsPlainExts(t, i);
        SumRemove(t.queue, i, AttemptsLeft);
        CheckWithPlainExts(g, random, ctx);
        assert Check(s, random, ctx) == Check(g, random, ctx);
      } else if !ctx {
        var r := Requeued(t.(inFlight := Some(i)));
        RequeuedKeepsPlainExts(t, i);
        SumMove(t.queue, i, Retried(t.queue[i]), AttemptsLeft);
        CheckWithPlainExts(r, random, ctx);
        assert Check(s, random, ctx) == Check(r, random, ctx);
      }
    }
  }

  lemma GiveUpKeepsPlainExts(s: State, i: nat)
    requires i < |s.queue| && PlainExts(s.queue)
    ensures PlainExts(GiveUp(s, i).queue)
  {
    ElementsOfMoveAt(s.queue, i, s.queue[i]);
  }

  lemma RequeuedKeepsPlainExts(s: State, i: nat)
    requires i < |s.queue| && PlainExts(s.queue)
    ensures PlainExts(Requeued(s.(inFlight := Some(i))).queue)
  {
    assert s.queue[i] in s.queue;
    ElementsOfMoveAt(s.queue, i, Retried(s.queue[i]));
  }

  /**
   * Without a context no download can start: unless reading a key throws,
   * every pending item is tried until it has no retries left and is given
   * up, so nobody is left waiting and each waiter was told (false, null).
   */
  lemma NoContextGivesUpEveryone(s: State, random: nat -> Token)
    requires Inv(s) && s.inFlight.None?
    ensures var r := Check(s, random, false);
      r.thrown == s.thrown ==>
        r.inFlight.None? && Waiting(r.queue) == multiset{} && Called(r.log) == Called(s.log) + Waiting(s.queue) &&
        forall k :: |s.log| <= k < |r.log| ==> !r.log[k].success
  {
    var r := Check(s, random, false);
    CheckPreservesInvariant(s, random, false);
    CheckConservesListeners(s, random, false);
    CheckOnlyReportsFailures(s, random, false);
    if r.thrown == s.thrown {
      forall v | v in r.queue ensures v.onDisk {
        var j :| 0 <= j < |r.queue| && r.queue[j] == v;
      }
      NobodyWaitsOnFinishedQueue(r.queue);
      assert Called(r.log) == Waiting(r.queue) + Called(r.log);
    }
  }

  // ---------------------------------------------------------------------------
  // The task's result

  /** An item in flight has at least one attempt left, so the queue has at least one. */
  lemma InFlightHasAttempt(q: seq<ItemVal>, i: nat)
    requires Fetchable(q, i)
    ensures AttemptsLeft(q[i]) >= 1 && Sum(q, AttemptsLeft) >= 1
  {
    SumAround(q, i, AttemptsLeft);
  }

  lemma DownloadedPreservesInvariant(s: State)
    requires Inv(s) && s.inFlight.Some?
    ensures Inv(Downloaded(s))
  {
    var i := s.inFlight.value;
    var it := s.queue[i];
    var done := it.(onDisk := true, responses := []);
    assert Downloaded(s).queue == s.queue[i := done];
    DistinctUrlsUpdate(s.queue, i, done);
    ElementsOfUpdate(s.queue, i, done);
  }

  lemma RequeuedPreservesInvariant(s: State)
    requires Inv(s) && s.inFlight.Some?
    ensures Inv(Requeued(s))
  {
    var i := s.inFlight.value;
    var v := Retried(s.queue[i]);
    assert Requeued(s).queue == MoveAt(s.queue, i, v);
    DistinctUrlsMove(s.queue, i, v);
    ElementsOfMoveAt(s.queue, i, v);
  }

  /**
   * The handling of a result before `checkOnQueue` keeps the invariant, frees
   * the downloader, calls back exactly those who stop waiting, and uses up one
   * attempt of the item that was in flight.
   */
  lemma HandledProperties(s: State, result: Option<bool>)
    requires Inv(s) && s.inFlight.Some?
    ensures var t := Handled(s, result);
      Inv(t) && t.inFlight.None? && t.thrown == s.thrown &&
      Waiting(t.queue) + Called(t.log) == Waiting(s.queue) + Called(s.log) &&
      Sum(t.queue, AttemptsLeft) < Sum(s.queue, AttemptsLeft)
  {
    if result == Some(true) {
      DownloadedPreservesInvariant(s);
      DownloadedAnswersWaiters(s);
    } else {
      RequeuedPreservesInvariant(s);
      RequeuedKeepsWaiters(s);
    }
  }

  /** Recording a download moves the item's waiters to called back, once each, and uses up its attempts. */
  lemma DownloadedAnswersWaiters(s: State)
    requires Inv(s) && s.inFlight.Some?
    ensures var t := Downloaded(s);
      Waiting(t.queue) + Called(t.log) == Waiting(s.queue) + Called(s.log) &&
      Sum(t.queue, AttemptsLeft) < Sum(s.queue, AttemptsLeft)
  {
    var i := s.inFlight.value;
    var it := s.queue[i];
    var done := it.(onDisk := true, responses := []);
    InFlightHasAttempt(s.queue, i);
    assert Downloaded(s).queue == s.queue[i := done];
    ReplaceMovesWaiters(s.queue, s.log, i, done, true, it.diskUrl);
    SumUpdate(s.queue, i, done, AttemptsLeft);
  }

  /** Counting a failure keeps who waits and who was called, and uses up one attempt. */
  lemma RequeuedKeepsWaiters(s: State)
    requires Inv(s) && s.inFlight.Some?
    ensures var t := Requeued(s);
      Waiting(t.queue) + Called(t.log) == Waiting(s.queue) + Called(s.log) &&
      Sum(t.queue, AttemptsLeft) < Sum(s.queue, AttemptsLeft)
  {
    var i := s.inFlight.value;
    var v := Retried(s.queue[i]);
    InFlightHasAttempt(s.queue, i);
    assert Requeued(s).queue == MoveAt(s.queue, i, v) && Requeued(s).log == s.log;
    MoveKeepsWaiters(s.queue, i, v);
    SumMove(s.queue, i, v, AttemptsLeft);
  }

  /**
   * Whatever the result, its handling keeps the invariant, calls back exactly
   * those who stop waiting, and uses up one attempt of the item that was in
   * flight; unless reading a key threw, it leaves the downloader ready.
   */
  lemma CompleteProperties(s: State, result: Option<bool>, random: nat -> Token)
    requires Inv(s) && s.inFlight.Some?
    ensures var r := Complete(s, result, random);
      Inv(r) && (r.thrown == s.thrown ==> Ready(r)) && s.thrown <= r.thrown &&
      Waiting(r.queue) + Called(r.log) == Waiting(s.queue) + Called(s.log) &&
      Sum(r.queue, AttemptsLeft) < Sum(s.queue, AttemptsLeft)
  {
    var t := Handled(s, result);
    HandledProperties(s, result);
    CheckPreservesInvariant(t, random, true);
    CheckConservesListeners(t, random, true);
    CheckKeepsAttempts(t, random, true);
  }

  /** Handling a result keeps the extensions plain and then throws nothing. */
  lemma CompleteWithPlainExts(s: State, result: Option<bool>, random: nat -> Token)
    requires Inv(s) && s.inFlight.Some? && PlainExts(s.queue)
    ensures Complete(s, result, random).thrown == s.thrown && PlainExts(Complete(s, result, random).queue)
  {
    var i := s.inFlight.value;
    var it := s.queue[i];
    assert it in s.queue;
    if result == Some(true) {
      ElementsOfUpdate(s.queue, i, it.(onDisk := true, responses := []));
      CheckWithPlainExts(Downloaded(s), random, true);
    } else {
      ElementsOfMoveAt(s.queue, i, Retried(it));
      CheckWithPlainExts(Requeued(s), random, true);
    }
  }

  /** A null result is handled exactly like a download that threw: the status other than 200 is retried. */
  lemma NullResultRetries(s: State, random: nat -> Token)
    requires Inv(s) && s.inFlight.Some?
    ensures Complete(s, None, random) == Complete(s, Some(false), random)
    ensures Complete(s, None, random) == Check(Requeued(s), random, true)
  {
  }

  /** The downloader after the async task reports `results`, one after the other, for as long as a download is in flight. */
  ghost function Run(s: State, results: seq<Option<bool>>, random: nat -> Token): (r: State)
    requires Inv(s)
    ensures Inv(r) && s.thrown <= r.thrown
    decreases |results|
  {
    if results == [] || s.inFlight.None? then s
    else
      CompleteProperties(s, results[0], random);
      Run(Complete(s, results[0], random), results[1..], random)
  }

  /**
   * Whatever the network does, once the async task has reported as many
   * results as the queue has attempts left (at most three per item), and
   * unless reading a key threw on the way, no download is in flight, nobody
   * is waiting, and everyone who was waiting has been called back exactly once.
   */
  lemma {:induction false} RunAnswersEveryone(s: State, results: seq<Option<bool>>, random: nat -> Token)
    requires Inv(s) && Ready(s) && |results| >= Sum(s.queue, AttemptsLeft)
    ensures var r := Run(s, results, random);
      r.thrown == s.thrown ==>
        r.inFlight.None? && Waiting(r.queue) == multiset{} && Called(r.log) == Called(s.log) + Waiting(s.queue)
    decreases |results|
  {
    if s.inFlight.None? {
      forall v | v in s.queue ensures v.onDisk {
        var j :| 0 <= j < |s.queue| && s.queue[j] == v;
      }
      NobodyWaitsOnFinishedQueue(s.queue);
    } else {
      InFlightHasAttempt(s.queue, s.inFlight.value);
      var t := Complete(s, results[0], random);
      CompleteProperties(s, results[0], random);
      var r := Run(t, results[1..], random);
      if t.thrown == s.thrown {
        RunAnswersEveryone(t, results[1..], random);
        if r.thrown == s.thrown {
          calc {
            Called(r.log);
            Waiting(r.queue) + Called(r.log);
            Called(t.log) + Waiting(t.queue);
            Waiting(s.queue) + Called(s.log);
          }
        }
      }
    }
  }

  /** With plain extensions only, the async task's reports never make `checkOnQueue` throw. */
  lemma {:induction false} RunWithPlainExtsNeverThrows(s: State, results: seq<Option<bool>>, random: nat -> Token)
    requires Inv(s) && PlainExts(s.queue)
    ensures Run(s, results, random).thrown == s.thrown
    decreases |results|
  {
    if results != [] && s.inFlight.Some? {
      CompleteProperties(s, results[0], random);
      CompleteWithPlainExts(s, results[0], random);
      RunWithPlainExtsNeverThrows(Complete(s, results[0], random), results[1..], random);
    }
  }

  /** No item is ever downloaded more than MaxRetries times: the attempts left bound the results still to come. */
  lemma AttemptsBoundResults(s: State)
    requires Inv(s)
    ensures Sum(s.queue, AttemptsLeft) <= MaxRetries * |s.queue|
    ensures forall v :: v in s.queue ==> v.retries <= MaxRetries
  {
    AttemptsBounded(s.queue);
  }

  // ---------------------------------------------------------------------------
  // downloadFileFrom

  lemma NotifyPresent(l: Option<Listener>, success: bool, diskUrl: Option<string>)
    ensures Notify(Present(l), success, diskUrl) == if l.Some? then [Event(l.value, success, diskUrl)] else []
  {
  }

  /** A fresh item for an unqueued URL keeps the invariant when appended. */
  lemma AppendFreshPreservesInvariant(s: State, url: Option<string>, ext: Option<string>, l: Option<Listener>)
    requires Inv(s) && ScanFor(s.queue, url).Miss?
    ensures Inv(s.(queue := s.queue + [Fresh(url, ext, l)]))
  {
    DistinctUrlsAppend(s.queue, Fresh(url, ext, l));
  }

  /**
   * A request keeps the invariant, and leaves a ready downloader ready unless
   * reading a key throws: a waiter only joins an item that is being
   * downloaded or is next in line behind the download in flight.
   */
  lemma RequestPreservesInvariant(s: State, url: Option<string>, ext: Option<string>, l: Option<Listener>, random: nat -> Token, ctx: bool)
    requires Inv(s)
    ensures var r := Request(s, url, ext, l, random, ctx);
      Inv(r) && (Ready(s) && r.thrown == s.thrown ==> Ready(r))
  {
    match ScanFor(s.queue, url)
    case NullKey =>
    case Hit(i) =>
      var it := s.queue[i];
      if !it.onDisk {
        var joined := it.(responses := it.responses + Present(l));
        assert Request(s, url, ext, l, random, ctx).queue == s.queue[i := joined];
        assert it in s.queue;
        DistinctUrlsUpdate(s.queue, i, joined);
        ElementsOfUpdate(s.queue, i, joined);
        assert FirstPending(s.queue).Some?;
      }
    case Miss =>
      AppendFreshPreservesInvariant(s, url, ext, l);
      CheckPreservesInvariant(s.(queue := s.queue + [Fresh(url, ext, l)]), random, ctx);
  }

  /**
   * A request adds the listener, if not null, exactly once: it ends up waiting
   * or called back, and nobody else is lost or called twice. A request whose
   * scan throws adds nobody.
   */
  lemma RequestConservesListeners(s: State, url: Option<string>, ext: Option<string>, l: Option<Listener>, random: nat -> Token, ctx: bool)
    ensures var r := Request(s, url, ext, l, random, ctx);
      Waiting(r.queue) + Called(r.log) ==
      Waiting(s.queue) + Called(s.log) + (if ScanFor(s.queue, url).NullKey? then multiset{} else multiset(Present(l)))
  {
    match ScanFor(s.queue, url)
    case NullKey =>
    case Hit(i) =>
      QueuedRequestConservesListeners(s, url, ext, l, random, ctx, i);
    case Miss =>
      AppendAddsWaiters(s, Fresh(url, ext, l), random, ctx);
  }

  lemma QueuedRequestConservesListeners(s: State, url: Option<string>, ext: Option<string>, l: Option<Listener>, random: nat -> Token, ctx: bool, i: nat)
    requires ScanFor(s.queue, url) == Hit(i)
    ensures var r := Request(s, url, ext, l, random, ctx);
      Waiting(r.queue) + Called(r.log) == Waiting(s.queue) + Called(s.log) + multiset(Present(l))
  {
    var it := s.queue[i];
    if it.onDisk {
      LogAfterNotify(s.log, Present(l), true, it.diskUrl);
    } else {
      JoinAddsWaiters(s.queue, i, Present(l));
    }
  }

  /** Joining an item's waiters adds exactly the joiners to who is waiting. */
  lemma JoinAddsWaiters(q: seq<ItemVal>, i: nat, more: seq<Listener>)
    requires i < |q|
    ensures Waiting(q[i := q[i].(responses := q[i].responses + more)]) == Waiting(q) + multiset(more)
  {
    var joined := q[i].(responses := q[i].responses + more);
    var m := multiset(q[i].responses);
    WaitingUpdate(q, i, joined);
    calc {
      Waiting(q[i := joined]);
      (Waiting(q[i := joined]) + m) - m;
      (Waiting(q) + (m + multiset(more))) - m;
      Waiting(q) + multiset(more);
    }
  }

  /** Appending an item and checking the queue adds exactly the item's waiters, waiting or called back. */
  lemma AppendAddsWaiters(s: State, v: ItemVal, random: nat -> Token, ctx: bool)
    ensures var r := Check(s.(queue := s.queue + [v]), random, ctx);
      Waiting(r.queue) + Called(r.log) == Waiting(s.queue) + Called(s.log) + multiset(v.responses)
  {
    WaitingConcat(s.queue, [v]);
    WaitingSingle(v);
    CheckConservesListeners(s.(queue := s.queue + [v]), random, ctx);
  }

  /**
   * A request for a queued URL adds no item: a listener is answered
   * (true, diskUrl) at once when the file is on disk and otherwise joins the
   * item's waiters; nothing else changes.
   */
  lemma RequestForQueuedUrl(s: State, url: Option<string>, ext: Option<string>, l: Option<Listener>, random: nat -> Token, ctx: bool, i: nat)
    requires ScanFor(s.queue, url) == Hit(i)
    ensures s.queue[i].onDisk ==>
      Request(s, url, ext, l, random, ctx) == s.(log := s.log + (if l.Some? then [Event(l.value, true, s.queue[i].diskUrl)] else []))
    ensures !s.queue[i].onDisk ==>
      Request(s, url, ext, l, random, ctx) == s.(queue := s.queue[i := s.queue[i].(responses := s.queue[i].responses + Present(l))])
    ensures !s.queue[i].onDisk && l.None? ==> Request(s, url, ext, l, random, ctx) == s
  {
    NotifyPresent(l, true, s.queue[i].diskUrl);
    if l.None? {
      assert s.queue[i].responses + [] == s.queue[i].responses;
      assert s.queue[i := s.queue[i]] == s.queue;
    }
  }

  /** A request for an unqueued URL always queues a new item, valid or not, with the listener waiting, and checks the queue. */
  lemma RequestForNewUrl(s: State, url: Option<string>, ext: Option<string>, l: Option<Listener>, random: nat -> Token, ctx: bool)
    requires AllKeyed(s.queue) && forall j :: 0 <= j < |s.queue| ==> s.queue[j].urlKey != url
    ensures Request(s, url, ext, l, random, ctx) ==
      Check(s.(queue := s.queue + [ItemVal(url, None, None, None, ext, false, 0, if l.Some? then [l.value] else [])]), random, ctx)
  {
    ScanOfKeyedQueue(s.queue, url);
  }

  // ---------------------------------------------------------------------------
  // The downloader object

  class SequentialFileDownloader {
    const queue: DownloadQueue
    var currentItem: DownloadItem?
    var busy: bool
    var cleanupOnce: bool
    /** The position of `currentItem` in the queue while its download is in flight. */
    ghost var cur: nat
    /** The app's SharedPreferences file and files directory. */
    var store: Store
    var files: set<string>
    /** Every listener call so far, in order. */
    var log: seq<Event>
    /** How many disk locations have been drawn. */
    var draws: nat
    /** How many exceptions have left `checkOnQueue`. */
    var thrown: nat
    const random: nat -> Token

    /** The downloader's state with the given queue snapshot. */
    ghost function StateOf(vals: seq<ItemVal>): State
      reads this
    {
      State(vals, if busy then Some(cur) else None, store, files, log, draws, thrown)
    }

    /** While a download is in flight, `currentItem` is the queued item it is for. */
    ghost predicate Tracked()
      reads this, queue
    {
      busy ==> cur < |queue.items| && currentItem == queue.items[cur]
    }

    /** A downloader with an empty queue, not busy, no cleanup done yet. */
    constructor (store: Store, files: set<string>, random: nat -> Token)
      ensures Inv(StateOf(ValsOf(queue.items))) && Ready(StateOf(ValsOf(queue.items))) && Tracked() && fresh(queue)
      ensures StateOf(ValsOf(queue.items)) == State([], None, store, files, [], 0, 0)
      ensures !cleanupOnce && this.random == random
    {
      this.store, this.files, this.random := store, files, random;
      queue := new DownloadQueue();
      currentItem, busy, cleanupOnce, cur, log, draws, thrown := null, false, false, 0, [], 0, 0;
    }

    /**
     * `downloadFileFrom`: the first call runs the cleanup, which throws out of
     * the call on a null context (before touching anything) or on a non-string
     * store entry (after removing the string entries it met first); otherwise
     * the request is handled as `Request` says, and `threw` reports the scan
     * throwing at an item with a null URL key or an exception leaving
     * `checkOnQueue`.
     */
    method DownloadFileFrom(hasContext: bool, url: Option<string>, ext: Option<string>, listener: Option<Listener>) returns (threw: bool)
      requires Inv(StateOf(ValsOf(queue.items))) && Tracked()
      modifies this, queue, queue.items
      ensures Inv(StateOf(ValsOf(queue.items))) && Tracked()
      ensures cleanupOnce
      ensures !old(cleanupOnce) && !hasContext ==>
        threw && StateOf(ValsOf(queue.items)) == old(StateOf(ValsOf(queue.items)))
      ensures !old(cleanupOnce) && hasContext && HoldsNonString(old(store)) ==>
        threw && StateOf(ValsOf(queue.items)).(store := old(store), files := old(files)) == old(StateOf(ValsOf(queue.items))) &&
        PartlyCleaned(old(store), store, old(files), files)
      ensures old(cleanupOnce) || (hasContext && !HoldsNonString(old(store))) ==>
        (threw <==> ScanFor(old(ValsOf(queue.items)), url).NullKey? || old(thrown) < thrown) &&
        StateOf(ValsOf(queue.items)) ==
          Request(if old(cleanupOnce) then old(StateOf(ValsOf(queue.items))) else Cleaned(old(StateOf(ValsOf(queue.items)))),
                  url, ext, listener, random, hasContext)
    {
      if !cleanupOnce {
        threw := CleanupOnce(hasContext);
        if threw {
          return;
        }
      }
      threw := Handle(url, ext, listener, hasContext);
    }

    /**
     * The first call's cleanup, as a change of the downloader's state: with no
     * context it throws before touching anything; otherwise it throws exactly
     * when the store holds a non-string value, and when it does not throw the
     * state is `Cleaned`.
     */
    method CleanupOnce(hasContext: bool) returns (threw: bool)
      requires !cleanupOnce
      modifies this`cleanupOnce, this`store, this`files
      ensures cleanupOnce
      ensures !hasContext ==> threw && StateOf(ValsOf(queue.items)) == old(StateOf(ValsOf(queue.items)))
      ensures hasContext ==> (threw <==> HoldsNonString(old(store)))
      ensures hasContext && threw ==>
        StateOf(ValsOf(queue.items)).(store := old(store), files := old(files)) == old(StateOf(ValsOf(queue.items))) &&
        PartlyCleaned(old(store), store, old(files), files)
      ensures !threw ==> StateOf(ValsOf(queue.items)) == Cleaned(old(StateOf(ValsOf(queue.items))))
    {
      cleanupOnce := true;
      if !hasContext {
        // `cleanup(null)` dereferences the context: NullPointerException
        ValsOfUnchanged(queue.items);
        return true;
      }
      threw := Cleanup();
      ValsOfUnchanged(queue.items);
    }

    /** A request after the cleanup: see `Request`. */
    method Handle(url: Option<string>, ext: Option<string>, l: Option<Listener>, ctx: bool) returns (threw: bool)
      requires Inv(StateOf(ValsOf(queue.items))) && Tracked()
      modifies this`currentItem, this`busy, this`cur, this`draws, this`log, this`thrown, queue, queue.items
      ensures Inv(StateOf(ValsOf(queue.items))) && Tracked()
      ensures threw <==> ScanFor(old(ValsOf(queue.items)), url).NullKey? || old(thrown) < thrown
      ensures StateOf(ValsOf(queue.items)) == Request(old(StateOf(ValsOf(queue.items))), url, ext, l, random, ctx)
    {
      ghost var s := StateOf(ValsOf(queue.items));
      var before := thrown;
      var found, npe := queue.HasItemForUrl(url);
      assert StateOf(ValsOf(queue.items)) == s;
      if npe {
        return true;
      }
      RequestPreservesInvariant(s, url, ext, l, random, ctx);
      if found {
        Join(url, ext, l, ctx);
      } else {
        Enqueue(url, ext, l, ctx);
      }
      threw := before < thrown;
    }

    /** The URL is queued: answer a listener from disk, or add it to the item's waiters. */
    method Join(url: Option<string>, ext: Option<string>, l: Option<Listener>, ghost ctx: bool)
      requires DistinctUrls(ValsOf(queue.items)) && Tracked() && ScanFor(ValsOf(queue.items), url).Hit?
      modifies this`log, queue.items
      ensures Tracked()
      ensures StateOf(ValsOf(queue.items)) == Request(old(StateOf(ValsOf(queue.items))), url, ext, l, random, ctx)
    {
      ghost var s := StateOf(ValsOf(queue.items));
      ghost var i := ScanFor(s.queue, url).index;
      DistinctItems(queue.items);
      var item, _ := queue.ItemForUrl(url);
      assert item == queue.items[i] && item.Val() == s.queue[i];
      RequestForQueuedUrl(s, url, ext, l, random, ctx, i);
      ghost var items := queue.items;
      ghost var r := Request(s, url, ext, l, random, ctx);
      var isOnDisk := item != null && item.onDisk;
      if isOnDisk {
        if l.Some? {
          log := log + [Event(l.value, true, item.diskUrl)];
        }
        ValsOfUnchanged(queue.items);
        assert StateOf(ValsOf(queue.items)) == r;
      } else if l.Some? && item != null {
        AddWaiter(item, i, l.value);
        assert Present(l) == [l.value];
        assert StateOf(ValsOf(queue.items)) == r;
      }
      assert queue.items == items;
    }

    /** `addResponse` on the item at position i, as an update of its snapshot. */
    method AddWaiter(item: DownloadItem, ghost i: nat, l: Listener)
      requires i < |queue.items| && item == queue.items[i] && NoAlias(queue.items)
      modifies item
      ensures ValsOf(queue.items) ==
        old(ValsOf(queue.items))[i := old(item.Val()).(responses := old(item.responses) + [l])]
    {
      ghost var q := ValsOf(queue.items);
      item.AddResponse(Some(l));
      SnapshotUpdate(q, ValsOf(queue.items), i);
    }

    /** The URL is not queued: a new item with the listener waiting goes to the back, and the queue is checked. */
    method Enqueue(url: Option<string>, ext: Option<string>, l: Option<Listener>, ctx: bool)
      requires Inv(StateOf(ValsOf(queue.items))) && Tracked() && ScanFor(ValsOf(queue.items), url).Miss?
      modifies this`currentItem, this`busy, this`cur, this`draws, this`log, this`thrown, queue, queue.items
      ensures Inv(StateOf(ValsOf(queue.items))) && Tracked()
      ensures StateOf(ValsOf(queue.items)) == Check(old(StateOf(ValsOf(queue.items))).(queue := old(ValsOf(queue.items)) + [Fresh(url, ext, l)]), random, ctx)
    {
      ghost var s := StateOf(ValsOf(queue.items));
      AppendFresh(url, ext, l);
      assert StateOf(ValsOf(queue.items)) == s.(queue := s.queue + [Fresh(url, ext, l)]);
      AppendFreshPreservesInvariant(s, url, ext, l);
      CheckOnQueue(ctx);
    }

    /** A new item for the URL, with the listener waiting, at the back of the queue. */
    method AppendFresh(url: Option<string>, ext: Option<string>, l: Option<Listener>)
      requires Tracked()
      modifies queue
      ensures Tracked()
      ensures ValsOf(queue.items) == old(ValsOf(queue.items)) + [Fresh(url, ext, l)]
      ensures |queue.items| == |old(queue.items)| + 1 && queue.items[..|old(queue.items)|] == old(queue.items)
      ensures fresh(queue.items[|old(queue.items)|])
    {
      var item := new DownloadItem.Empty();
      item.urlKey := url;
      item.ext := ext;
      item.AddResponse(l);
      assert item.Val() == Fresh(url, ext, l);
      ValsOfUnchanged(queue.items);
      ghost var items := queue.items;
      queue.AddToQueue(item);
      ValsOfUnchanged(items);
      ValsOfAppend(items, item);
    }

    /**
     * `checkOnQueue`: unless busy or empty, take the first item not on disk,
     * give it a disk location and key if it has none, then start its download
     * if it has retries left, or give it up and check again.
     */
    method CheckOnQueue(ctx: bool)
      requires Inv(StateOf(ValsOf(queue.items))) && Tracked()
      modifies this`currentItem, this`busy, this`cur, this`draws, this`log, this`thrown, queue, queue.items
      ensures Inv(StateOf(ValsOf(queue.items))) && Tracked()
      ensures StateOf(ValsOf(queue.items)) == Check(old(StateOf(ValsOf(queue.items))), random, ctx)
      ensures forall j :: 0 <= j < |queue.items| ==> queue.items[j] in old(queue.items)
      decreases Sum(ValsOf(queue.items), AttemptsLeft), |queue.items|, 3
    {
      ghost var s := StateOf(ValsOf(queue.items));
      var length := queue.GetLength();
      if busy || length == 0 {
        return;
      }
      var next := queue.GetNext();
      assert StateOf(ValsOf(queue.items)) == s;
      currentItem := next;
      if next != null {
        Start(next, FirstPending(s.queue).value, ctx);
      }
    }

    /**
     * The pick in `checkOnQueue`: give the item at i a disk location and key
     * if it has none, then launch it; an exception reading the key ends
     * `checkOnQueue` there.
     */
    method Start(next: DownloadItem, ghost i: nat, ctx: bool)
      requires Inv(StateOf(ValsOf(queue.items))) && Tracked() && !busy
      requires FirstPending(ValsOf(queue.items)) == Some(i) && next == queue.items[i] && currentItem == next
      modifies this`currentItem, this`busy, this`cur, this`draws, this`log, this`thrown, queue, queue.items
      ensures Inv(StateOf(ValsOf(queue.items))) && Tracked()
      ensures StateOf(ValsOf(queue.items)) == Check(old(StateOf(ValsOf(queue.items))), random, ctx)
      ensures forall j :: 0 <= j < |queue.items| ==> queue.items[j] in old(queue.items)
      decreases Sum(ValsOf(queue.items), AttemptsLeft), |queue.items|, 2
    {
      ghost var s := StateOf(ValsOf(queue.items));
      DistinctItems(queue.items);
      PickPreservesInvariant(s, i, random);
      var threw := PickItem(next, i);
      if threw {
        CheckThrows(s, i, random, ctx);
        return;
      }
      ghost var t := Pick(s, i, random);
      assert ValsOf(queue.items) == t.queue;
      PickThenCheck(s, i, random, ctx);
      Launch(next, i, ctx);
    }

    /**
     * The item at i keeps its disk location, or gets one and the key read back
     * from it. `threw` is the read throwing, which counts one more exception
     * leaving `checkOnQueue`.
     */
    method PickItem(next: DownloadItem, ghost i: nat) returns (threw: bool)
      requires i < |queue.items| && next == queue.items[i] && NoAlias(queue.items)
      modifies this`draws, this`thrown, next
      ensures threw <==> ReadThrows(old(StateOf(ValsOf(queue.items))), i, random)
      ensures StateOf(ValsOf(queue.items)) ==
        var t := Pick(old(StateOf(ValsOf(queue.items))), i, random); if threw then t.(thrown := t.thrown + 1) else t
    {
      threw := false;
      if next.diskUrl == None {
        threw := Locate(next, i);
        if threw {
          label located:
          thrown := thrown + 1;
          ValsOfUnchanged@located(queue.items);
        }
      }
    }

    /**
     * Start the download of the located item at i if it has retries left,
     * otherwise give it up and check again. Without a context the async
     * task's constructor fails and calls `onError()` at once.
     */
    method Launch(next: DownloadItem, ghost i: nat, ctx: bool)
      requires Inv(StateOf(ValsOf(queue.items))) && Tracked() && !busy
      requires FirstPending(ValsOf(queue.items)) == Some(i) && next == queue.items[i] && currentItem == next
      requires next.diskUrl.Some?
      modifies this`currentItem, this`busy, this`cur, this`draws, this`log, this`thrown, queue, queue.items
      ensures Inv(StateOf(ValsOf(queue.items))) && Tracked()
      ensures StateOf(ValsOf(queue.items)) == Check(old(StateOf(ValsOf(queue.items))), random, ctx)
      ensures forall j :: 0 <= j < |queue.items| ==> queue.items[j] in old(queue.items)
      decreases Sum(ValsOf(queue.items), AttemptsLeft), |queue.items|, 1
    {
      ghost var s := StateOf(ValsOf(queue.items));
      PickKeepsStatus(s, i, random);
      DistinctItems(queue.items);
      if next.nrRetries < MaxRetries {
        CheckStarts(s, i, random, ctx);
        busy := true;
        cur := i;
        assert StateOf(ValsOf(queue.items)) == s.(inFlight := Some(i));
        if !ctx {
          // `new SAAsyncTask(null, …)` throws inside its try block, and its catch calls onError
          OnError(false);
        }
      } else {
        CheckGivesUp(s, i, random, ctx);
        GiveUpPreservesInvariant(s, i);
        SumRemove(s.queue, i, AttemptsLeft);
        Discard(next, i);
        assert StateOf(ValsOf(queue.items)) == GiveUp(s, i);
        CheckOnQueue(ctx);
      }
    }

    /** `getDiskLocation(ext)`: "samov_" + n + "." + ext for the next random n below 65548. */
    method GetDiskLocation(ext: Option<string>) returns (loc: string)
      modifies this`draws
      ensures loc == DiskLocation(random(old(draws)), ext) && draws == old(draws) + 1
    {
      var n := random(draws);
      draws := draws + 1;
      loc := DiskNamePrefix + Decimal(n) + "." + Str(ext);
    }

    /**
     * The item at position i gets a fresh disk location, split on '_' and then
     * on the regular expression "." + ext; the first piece is its key. When
     * that split leaves no piece, `c2[0]` throws and the key stays unset.
     */
    method Locate(item: DownloadItem, ghost i: nat) returns (threw: bool)
      requires i < |queue.items| && item == queue.items[i] && NoAlias(queue.items) && item.diskUrl == None
      modifies this`draws, item
      ensures draws == old(draws) + 1
      ensures threw <==> KeyOfDiskLocation(DiskLocation(random(old(draws)), old(item.ext)), old(item.ext)).None?
      ensures ValsOf(queue.items) ==
        old(ValsOf(queue.items))[i := WithLocation(old(item.Val()), DiskLocation(random(old(draws)), old(item.ext)))]
    {
      ghost var q := ValsOf(queue.items);
      ghost var n := random(draws);
      var loc := GetDiskLocation(item.ext);
      item.diskUrl := Some(loc);
      DiskLocationHasTokenPiece(n, item.ext);
      var c1 := JavaSplit(loc, '_');
      var key1 := c1[1];
      var c2 := DotSplit(key1, Str(item.ext));
      threw := |c2| == 0;
      if !threw {
        item.key := Some(c2[0]);
      }
      SnapshotUpdate(q, ValsOf(queue.items), i);
    }

    /** No retries left: call every waiter with (false, null), clear them, and remove the item. */
    method Discard(item: DownloadItem, ghost i: nat)
      requires i < |queue.items| && item == queue.items[i] && NoAlias(queue.items)
      modifies this`log, item, queue
      ensures log == old(log) + Notify(old(item.responses), false, None)
      ensures ValsOf(queue.items) == RemoveAt(old(ValsOf(queue.items)), i)
      ensures forall j :: 0 <= j < |queue.items| ==> queue.items[j] in old(queue.items)
    {
      ghost var q := ValsOf(queue.items);
      NotifyAll(item.responses, false, None);
      item.ClearResponses();
      SnapshotUpdate(q, ValsOf(queue.items), i);
      RemoveAtIgnoresReplaced(q, i, item.Val(), item.Val());
      Drop(item, i);
    }

    /** `removeFromQueue` on the item at position i, as a removal of its snapshot. */
    method Drop(item: DownloadItem, ghost i: nat)
      requires i < |queue.items| && item == queue.items[i] && NoAlias(queue.items)
      modifies queue
      ensures ValsOf(queue.items) == RemoveAt(old(ValsOf(queue.items)), i)
      ensures forall j :: 0 <= j < |queue.items| ==> queue.items[j] in old(queue.items)
    {
      ghost var before := queue.items;
      ValsOfRemove(before, i);
      queue.RemoveFromQueue(item);
      assert queue.items == RemoveFirst(before, before[i]);
      ValsOfUnchanged(queue.items);
      forall j | 0 <= j < |queue.items| ensures queue.items[j] in before {
        assert queue.items[j] in queue.items;
      }
    }

    /**
     * SAAsyncTask's hand-over of the download task's result: non-null to
     * `onFinish`, null to `onError`. An exception from `onFinish` is caught
     * by the task; one from `onError` is not, but either way the state is the
     * one `Complete` gives.
     */
    method Deliver(result: Option<bool>)
      requires Inv(StateOf(ValsOf(queue.items))) && Tracked() && busy
      modifies this`currentItem, this`busy, this`cur, this`draws, this`store, this`files, this`log, this`thrown, queue, queue.items
      ensures Inv(StateOf(ValsOf(queue.items))) && Tracked()
      ensures StateOf(ValsOf(queue.items)) == Complete(old(StateOf(ValsOf(queue.items))), result, random)
    {
      if result.Some? {
        OnFinish(result.value);
      } else {
        OnError(true);
      }
    }

    /** `onFinish(result)`: true records the download, false counts a failure; then the queue is checked. */
    method OnFinish(result: bool)
      requires Inv(StateOf(ValsOf(queue.items))) && Tracked() && busy
      modifies this`currentItem, this`busy, this`cur, this`draws, this`store, this`files, this`log, this`thrown, queue, queue.items
      ensures Inv(StateOf(ValsOf(queue.items))) && Tracked()
      ensures StateOf(ValsOf(queue.items)) ==
        Check(if result then Downloaded(old(StateOf(ValsOf(queue.items)))) else Requeued(old(StateOf(ValsOf(queue.items)))), random, true)
    {
      ghost var s := StateOf(ValsOf(queue.items));
      DistinctItems(queue.items);
      if result {
        DownloadedPreservesInvariant(s);
        Save(currentItem, cur);
        assert StateOf(ValsOf(queue.items)) == Downloaded(s);
      } else {
        RequeuedPreservesInvariant(s);
        Retreat(currentItem, cur);
        assert StateOf(ValsOf(queue.items)) == Requeued(s);
      }
      CheckOnQueue(true);
    }

    /** `onError()`: count a failure, then check the queue. */
    method OnError(ctx: bool)
      requires Inv(StateOf(ValsOf(queue.items))) && Tracked() && busy
      modifies this`currentItem, this`busy, this`cur, this`draws, this`log, this`thrown, queue, queue.items
      ensures Inv(StateOf(ValsOf(queue.items))) && Tracked()
      ensures StateOf(ValsOf(queue.items)) == Check(Requeued(old(StateOf(ValsOf(queue.items)))), random, ctx)
      ensures forall j :: 0 <= j < |queue.items| ==> queue.items[j] in old(queue.items)
      decreases Sum(ValsOf(queue.items), AttemptsLeft), |queue.items|, 0
    {
      ghost var s := StateOf(ValsOf(queue.items));
      DistinctItems(queue.items);
      RequeuedPreservesInvariant(s);
      InFlightHasAttempt(s.queue, cur);
      SumMove(s.queue, cur, Retried(s.queue[cur]), AttemptsLeft);
      Retreat(currentItem, cur);
      assert StateOf(ValsOf(queue.items)) == Requeued(s);
      CheckOnQueue(ctx);
    }

    /** The download succeeded: record it, call every waiter with (true, diskUrl), mark the item on disk, free the downloader. */
    method Save(item: DownloadItem, ghost i: nat)
      requires i < |queue.items| && item == queue.items[i] && NoAlias(queue.items)
      requires item.diskUrl.Some?
      modifies this`store, this`files, this`log, this`busy, item
      ensures !busy
      ensures store == old(store)[old(item.key) := Text(old(item.diskUrl.value))]
      ensures files == old(files) + {old(item.diskUrl.value)}
      ensures log == old(log) + Notify(old(item.responses), true, old(item.diskUrl))
      ensures ValsOf(queue.items) == old(ValsOf(queue.items))[i := old(item.Val()).(onDisk := true, responses := [])]
    {
      ghost var q := ValsOf(queue.items);
      store := store[item.key := Text(item.diskUrl.value)];
      files := files + {item.diskUrl.value};
      NotifyAll(item.responses, true, item.diskUrl);
      item.onDisk := true;
      item.ClearResponses();
      busy := false;
      SnapshotUpdate(q, ValsOf(queue.items), i);
    }

    /** The download failed: free the downloader, count the failure, clear `onDisk`, and move the item to the back. */
    method Retreat(item: DownloadItem, ghost i: nat)
      requires i < |queue.items| && item == queue.items[i] && NoAlias(queue.items)
      modifies this`busy, item, queue
      ensures !busy
      ensures ValsOf(queue.items) == MoveAt(old(ValsOf(queue.items)), i, Retried(old(item.Val())))
      ensures forall j :: 0 <= j < |queue.items| ==> queue.items[j] in old(queue.items)
    {
      ghost var q := ValsOf(queue.items);
      ghost var v := Retried(q[i]);
      busy := false;
      item.IncrementNrRetries();
      item.onDisk := false;
      assert item.Val() == v;
      SnapshotUpdate(q, ValsOf(queue.items), i);
      RemoveAtIgnoresReplaced(q, i, v, v);
      Requeue(item, i);
    }

    /** `removeFromQueue` then `addToQueue` of the item at position i, as a move of its snapshot to the back. */
    method Requeue(item: DownloadItem, ghost i: nat)
      requires i < |queue.items| && item == queue.items[i] && NoAlias(queue.items)
      modifies queue
      ensures ValsOf(queue.items) == MoveAt(old(ValsOf(queue.items)), i, item.Val())
      ensures forall j :: 0 <= j < |queue.items| ==> queue.items[j] in old(queue.items)
    {
      ghost var items := queue.items;
      ValsOfMoveToBack(items, i);
      queue.RemoveFromQueue(item);
      queue.AddToQueue(item);
      assert queue.items == MoveToBack(items, item);
      ValsOfUnchanged(queue.items);
    }

    /** Calls every waiter in list order with the same result. */
    method NotifyAll(waiters: seq<Listener>, success: bool, diskUrl: Option<string>)
      modifies this`log
      ensures log == old(log) + Notify(waiters, success, diskUrl)
    {
      var k := 0;
      while k < |waiters|
        invariant 0 <= k <= |waiters|
        invariant log == old(log) + Notify(waiters[..k], success, diskUrl)
      {
        NotifyPrefix(waiters, k, success, diskUrl);
        log := log + [Event(waiters[k], success, diskUrl)];
        k := k + 1;
      }
      assert waiters[..k] == waiters;
    }

    /**
     * `cleanup`: for every key of the store, in no particular order, a string
     * entry has its file deleted and leaves the store. A non-string entry makes
     * `getString` throw ClassCastException, which nothing catches: the cleanup
     * stops there with the string entries met so far removed.
     */
    method Cleanup() returns (threw: bool)
      modifies this`store, this`files
      ensures threw <==> HoldsNonString(old(store))
      ensures !threw ==> store == WithoutText(old(store)) && files == old(files) - FileNames(old(store))
      ensures threw ==> PartlyCleaned(old(store), store, old(files), files)
    {
      ghost var store0, files0 := store, files;
      ghost var done: Store := map[];
      var keys := store.Keys;
      while keys != {}
        invariant keys <= store0.Keys
        invariant forall k :: k in done <==> k in store0 && k !in keys
        invariant forall k :: k in done ==> done[k] == store0[k] && done[k].Text?
        invariant forall k :: k in store <==> k in store0 && k !in done
        invariant forall k :: k in store ==> store[k] == store0[k]
        invariant files == files0 - FileNames(done)
        decreases keys
      {
        var key :| key in keys;
        match store[key] {
          case Text(name) =>
            FileNamesExtend(done, key, store0[key]);
            done := done[key := store0[key]];
            keys := keys - {key};
            files := files - {name};
            store := store - {key};
          case Other =>
            assert Dropped(store0, store) == done;
            return true;
        }
      }
      assert done == store0;
      assert store == WithoutText(store0);
      return false;
    }
  }
}
