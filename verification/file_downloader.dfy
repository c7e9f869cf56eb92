/**
 * SAFileDownloader: a single-flight, one-at-a-time file download queue.
 *
 * A request for a URL that is already queued is answered from disk or joins
 * the waiters of the queued item; a new URL becomes a queued item if it yields
 * a valid SAFileItem. `checkOnQueue` then fetches the first item not on disk,
 * and the outcome of each fetch decides what happens to the item. The executor
 * runs each fetch synchronously, so one `checkOnQueue` drains the queue until
 * there is nothing left to fetch or a fetch leaves the downloader busy.
 *
 * The network is the function `net`: the outcome of the k-th fetch of this
 * downloader's life is `net(k)`. Listeners are called directly, as the code
 * does when there is no main looper to post to, and their calls are recorded
 * in `log`.
 */
module FileDownloads {
  import opened JavaLang
  import opened Items
  import opened Queues
  import opened Downloads

  /** The outcome of one fetch: file written, an exception, or a status other than 200. */
  datatype Outcome = Saved | Failed | Non200

  /** The downloader's state on values. */
  datatype State = State(
    queue: seq<ItemVal>,
    busy: bool,
    store: Store,
    files: set<string>,
    log: seq<Event>,
    fetches: nat)

  /** Every queued item is valid (only valid items are ever queued). */
  ghost predicate AllValid(q: seq<ItemVal>) {
    forall v :: v in q ==> v.Valid()
  }

  /** What holds of the queue between calls: valid items, one item per URL, retries bounded, no waiter on a finished item. */
  ghost predicate Inv(q: seq<ItemVal>) {
    AllValid(q) && DistinctUrls(q) && Settled(q)
  }

  /** `checkOnQueue` has nothing to do: the downloader is busy, or every queued item is on disk (or there is none). */
  ghost predicate Idle(s: State) {
    s.busy || FirstPending(s.queue).None?
  }

  /** The next item to act on: the first one not on disk. */
  ghost function Next(s: State): (i: nat)
    requires FirstPending(s.queue).Some?
    ensures i < |s.queue| && !s.queue[i].onDisk
  {
    FirstPending(s.queue).value
  }

  /** No retries left: every waiter gets (false, null) and the item leaves the queue. */
  ghost function GiveUp(s: State, i: nat): (r: State)
    requires i < |s.queue|
  {
    s.(queue := RemoveAt(s.queue, i), log := s.log + Notify(s.queue[i].responses, false, None))
  }

  /**
   * The file was written: the store maps the key to the disk URL, the file
   * exists, every waiter gets (true, diskUrl) in list order, and the item is on
   * disk with nobody waiting.
   */
  ghost function Finish(s: State, i: nat): (r: State)
    requires i < |s.queue| && s.queue[i].Valid()
  {
    var it := s.queue[i];
    s.(queue := s.queue[i := it.(onDisk := true, responses := [])],
       store := s.store[it.key := Text(it.diskUrl.value)],
       files := s.files + {it.diskUrl.value},
       log := s.log + Notify(it.responses, true, it.diskUrl))
  }

  /** The fetch threw: one more retry, not on disk, moved to the back of the queue. */
  ghost function Retry(s: State, i: nat): (r: State)
    requires i < |s.queue|
  {
    s.(queue := MoveAt(s.queue, i, Retried(s.queue[i])))
  }

  /**
   * One activation of `checkOnQueue` that does something: the next item is
   * given up if it has no retries left, and otherwise fetched, with outcome
   * `net(s.fetches)`. A status other than 200 makes the worker return early:
   * nobody is called and busy stays set.
   */
  ghost function Step(s: State, net: nat -> Outcome): (r: State)
    requires AllValid(s.queue) && !Idle(s)
  {
    var i := Next(s);
    if !s.queue[i].HasRetriesRemaining() then GiveUp(s, i)
    else
      var t := s.(fetches := s.fetches + 1);
      match net(s.fetches)
      case Saved => assert s.queue[i] in s.queue; Finish(t, i)
      case Failed => Retry(t, i)
      case Non200 => t.(busy := true)
  }

  /** A step on an item with no retries left gives it up. */
  lemma StepGivesUp(s: State, net: nat -> Outcome)
    requires AllValid(s.queue) && !Idle(s) && !s.queue[Next(s)].HasRetriesRemaining()
    ensures Step(s, net) == GiveUp(s, Next(s))
  {
  }

  /** A fetch that writes the file finishes the item. */
  lemma StepSaves(s: State, net: nat -> Outcome)
    requires AllValid(s.queue) && !Idle(s) && s.queue[Next(s)].HasRetriesRemaining() && net(s.fetches) == Saved
    ensures s.queue[Next(s)].Valid()
    ensures Step(s, net) == Finish(s.(fetches := s.fetches + 1), Next(s))
  {
    assert s.queue[Next(s)] in s.queue;
  }

  /** A fetch that throws retries the item later. */
  lemma StepFails(s: State, net: nat -> Outcome)
    requires AllValid(s.queue) && !Idle(s) && s.queue[Next(s)].HasRetriesRemaining() && net(s.fetches) == Failed
    ensures Step(s, net) == Retry(s.(fetches := s.fetches + 1), Next(s))
  {
  }

  /** A fetch with a status other than 200 leaves the downloader busy and changes nothing else. */
  lemma StepStalls(s: State, net: nat -> Outcome)
    requires AllValid(s.queue) && !Idle(s) && s.queue[Next(s)].HasRetriesRemaining() && net(s.fetches) == Non200
    ensures Step(s, net) == s.(fetches := s.fetches + 1, busy := true)
  {
  }

  lemma ItemIsValid(q: seq<ItemVal>, i: nat)
    requires AllValid(q) && i < |q|
    ensures q[i].Valid()
  {
    assert q[i] in q;
  }

  /** Appending a fresh valid item for an unqueued URL keeps the invariant. */
  lemma AppendKeepsInvariant(q: seq<ItemVal>, v: ItemVal)
    requires Inv(q) && v.Valid() && !v.onDisk && v.retries == 0
    requires forall j :: 0 <= j < |q| ==> q[j].urlKey != v.urlKey
    ensures Inv(q + [v])
  {
    DistinctUrlsAppend(q, v);
  }

  /** Valid items all have a URL key. */
  lemma ValidIsKeyed(q: seq<ItemVal>)
    requires AllValid(q)
    ensures AllKeyed(q)
  {
    forall j | 0 <= j < |q| ensures q[j].urlKey.Some? { ItemIsValid(q, j); }
  }

  /** Scanning a queue of valid items never meets a null key. */
  lemma ScanOfValidQueue(q: seq<ItemVal>, url: Option<string>)
    requires AllValid(q)
    ensures ScanFor(q, url).Hit? || ScanFor(q, url).Miss?
  {
    ValidIsKeyed(q);
    ScanOfKeyedQueue(q, url);
  }

  /** Draining an idle downloader changes nothing. */
  lemma DrainIdle(s: State, net: nat -> Outcome)
    requires AllValid(s.queue) && Idle(s)
    ensures Drain(s, net) == s
  {
  }

  /** Draining after one step ends where draining from before it does. */
  lemma DrainStep(s: State, net: nat -> Outcome)
    requires AllValid(s.queue) && !Idle(s)
    ensures AllValid(Step(s, net).queue)
    ensures Drain(Step(s, net), net) == Drain(s, net)
  {
    StepMakesProgress(s, net);
  }

  /**
   * A step keeps every item valid and makes progress: it either stops the
   * downloader (leaving the queue as it was) or lowers the work left; and each
   * fetch uses up one of the attempts left.
   */
  lemma StepMakesProgress(s: State, net: nat -> Outcome)
    requires AllValid(s.queue) && !Idle(s)
    ensures AllValid(Step(s, net).queue)
    ensures Step(s, net).busy ==> Step(s, net).queue == s.queue && 1 <= Sum(s.queue, AttemptsLeft)
    ensures !Step(s, net).busy ==> Sum(Step(s, net).queue, Weight) < Sum(s.queue, Weight)
    ensures !Step(s, net).busy ==>
      Step(s, net).fetches + Sum(Step(s, net).queue, AttemptsLeft) <= s.fetches + Sum(s.queue, AttemptsLeft)
  {
    var i := Next(s);
    var it := s.queue[i];
    var t := s.(fetches := s.fetches + 1);
    SumAround(s.queue, i, AttemptsLeft);
    if !it.HasRetriesRemaining() {
      assert Step(s, net) == GiveUp(s, i);
      ElementsOfMoveAt(s.queue, i, it);
      SumRemove(s.queue, i, Weight);
      SumRemove(s.queue, i, AttemptsLeft);
    } else {
      match net(s.fetches)
      case Saved =>
        var done := it.(onDisk := true, responses := []);
        assert Step(s, net) == Finish(t, i);
        assert Finish(t, i).queue == s.queue[i := done];
        ElementsOfUpdate(s.queue, i, done);
        SumUpdate(s.queue, i, done, Weight);
        SumUpdate(s.queue, i, done, AttemptsLeft);
      case Failed =>
        var retried := Retried(it);
        assert Step(s, net) == Retry(t, i);
        ElementsOfMoveAt(s.queue, i, retried);
        SumMove(s.queue, i, retried, Weight);
        SumMove(s.queue, i, retried, AttemptsLeft);
      case Non200 =>
    }
  }

  /** `checkOnQueue` with a synchronous executor: step until idle. */
  ghost function Drain(s: State, net: nat -> Outcome): (r: State)
    requires AllValid(s.queue)
    ensures AllValid(r.queue) && Idle(r)
    decreases Sum(s.queue, Weight), if s.busy then 0 else 1
  {
    if Idle(s) then s
    else
      StepMakesProgress(s, net);
      Drain(Step(s, net), net)
  }

  /**
   * `downloadFileFrom` with a context, after the one-time cleanup: a queued URL
   * is answered from disk or joins the waiters; an unqueued one becomes a new
   * item with the listener waiting, which is queued and drained if valid and
   * answered (false, null) otherwise. `l` is the listener, or the no-op one.
   */
  ghost function Request(s: State, url: Option<string>, l: Listener, parse: string -> UrlParse, net: nat -> Outcome): (r: State)
    requires Inv(s.queue)
  {
    var scan := ScanFor(s.queue, url);
    if scan.Hit? then
      var it := s.queue[scan.index];
      if it.onDisk then s.(log := s.log + [Event(l, true, it.diskUrl)])
      else s.(queue := s.queue[scan.index := it.(responses := it.responses + [l])])
    else
      var added := FileItem(url, parse).(responses := [l]);
      if added.Valid() then Drain(s.(queue := s.queue + [added]), net)
      else s.(log := s.log + [Event(l, false, None)])
  }

  /** The one-time cleanup: every string entry leaves the store and its file is deleted; other entries stay. */
  ghost function Cleaned(s: State): (r: State)
    ensures r.queue == s.queue && r.busy == s.busy && r.log == s.log && r.fetches == s.fetches
    ensures forall k :: k in r.store <==> k in s.store && s.store[k].Other?
    ensures forall k :: k in r.store ==> r.store[k] == s.store[k]
    ensures forall k :: k in s.store && s.store[k].Text? ==> s.store[k].s !in r.files
    ensures r.files <= s.files
  {
    s.(store := WithoutText(s.store), files := s.files - FileNames(s.store))
  }

  // ---------------------------------------------------------------------------
  // Properties of the value model

  lemma StepPreservesInvariant(s: State, net: nat -> Outcome)
    requires Inv(s.queue) && !Idle(s)
    ensures Inv(Step(s, net).queue)
  {
    var i := Next(s);
    var it := s.queue[i];
    var t := s.(fetches := s.fetches + 1);
    assert it in s.queue;
    if !it.HasRetriesRemaining() {
      assert Step(s, net).queue == RemoveAt(s.queue, i);
      DistinctUrlsRemove(s.queue, i);
      ElementsOfMoveAt(s.queue, i, it);
    } else {
      match net(s.fetches)
      case Saved =>
        var done := it.(onDisk := true, responses := []);
        assert Step(s, net).queue == s.queue[i := done] by {
          assert Step(s, net) == Finish(t, i);
        }
        DistinctUrlsUpdate(s.queue, i, done);
        ElementsOfUpdate(s.queue, i, done);
      case Failed =>
        var retried := Retried(it);
        assert Step(s, net).queue == MoveAt(s.queue, i, retried) by {
          assert Step(s, net) == Retry(t, i);
        }
        DistinctUrlsMove(s.queue, i, retried);
        ElementsOfMoveAt(s.queue, i, retried);
      case Non200 =>
    }
  }

  /** Draining keeps valid items, one item per URL, at most MaxRetries failures per item, and no waiter on a finished item. */
  lemma {:induction false} DrainPreservesInvariant(s: State, net: nat -> Outcome)
    requires Inv(s.queue)
    ensures Inv(Drain(s, net).queue)
    decreases Sum(s.queue, Weight), if s.busy then 0 else 1
  {
    if !Idle(s) {
      StepMakesProgress(s, net);
      StepPreservesInvariant(s, net);
      DrainPreservesInvariant(Step(s, net), net);
    }
  }

  lemma GiveUpConservesListeners(s: State, i: nat)
    requires i < |s.queue|
    ensures Waiting(GiveUp(s, i).queue) + Called(GiveUp(s, i).log) == Waiting(s.queue) + Called(s.log)
  {
    var m := multiset(s.queue[i].responses);
    WaitingRemove(s.queue, i);
    LogAfterNotify(s.log, s.queue[i].responses, false, None);
    calc {
      Waiting(GiveUp(s, i).queue) + Called(GiveUp(s, i).log);
      Waiting(RemoveAt(s.queue, i)) + (Called(s.log) + m);
      (Waiting(RemoveAt(s.queue, i)) + m) + Called(s.log);
      Waiting(s.queue) + Called(s.log);
    }
  }

  lemma FinishConservesListeners(s: State, i: nat)
    requires i < |s.queue| && s.queue[i].Valid()
    ensures Waiting(Finish(s, i).queue) + Called(Finish(s, i).log) == Waiting(s.queue) + Called(s.log)
  {
    var it := s.queue[i];
    var m := multiset(it.responses);
    var done := it.(onDisk := true, responses := []);
    WaitingUpdate(s.queue, i, done);
    assert multiset(done.responses) == multiset{};
    LogAfterNotify(s.log, it.responses, true, it.diskUrl);
    calc {
      Waiting(Finish(s, i).queue) + Called(Finish(s, i).log);
      Waiting(s.queue[i := done]) + (Called(s.log) + m);
      (Waiting(s.queue[i := done]) + m) + Called(s.log);
      Waiting(s.queue) + Called(s.log);
    }
  }

  lemma RetryConservesListeners(s: State, i: nat)
    requires i < |s.queue|
    ensures Waiting(Retry(s, i).queue) + Called(Retry(s, i).log) == Waiting(s.queue) + Called(s.log)
  {
    var retried := Retried(s.queue[i]);
    assert Retry(s, i).queue == MoveAt(s.queue, i, retried) && Retry(s, i).log == s.log;
    assert retried.responses == s.queue[i].responses;
    var m := multiset(retried.responses);
    WaitingMove(s.queue, i, retried);
    calc {
      Waiting(MoveAt(s.queue, i, retried));
      (Waiting(MoveAt(s.queue, i, retried)) + m) - m;
      (Waiting(s.queue) + m) - m;
      Waiting(s.queue);
    }
  }

  lemma StepConservesListeners(s: State, net: nat -> Outcome)
    requires AllValid(s.queue) && !Idle(s)
    ensures Waiting(Step(s, net).queue) + Called(Step(s, net).log) == Waiting(s.queue) + Called(s.log)
  {
    var i := Next(s);
    var t := s.(fetches := s.fetches + 1);
    if !s.queue[i].HasRetriesRemaining() {
      GiveUpConservesListeners(s, i);
    } else {
      match net(s.fetches)
      case Saved =>
        assert s.queue[i] in s.queue;
        FinishConservesListeners(t, i);
      case Failed =>
        RetryConservesListeners(t, i);
      case Non200 =>
    }
  }

  /**
   * No listener is lost or called twice: every waiter of the queue is, after a
   * drain, either still waiting or called back exactly once.
   */
  lemma {:induction false} DrainConservesListeners(s: State, net: nat -> Outcome)
    requires AllValid(s.queue)
    ensures Waiting(Drain(s, net).queue) + Called(Drain(s, net).log) == Waiting(s.queue) + Called(s.log)
    decreases Sum(s.queue, Weight), if s.busy then 0 else 1
  {
    if !Idle(s) {
      StepMakesProgress(s, net);
      StepConservesListeners(s, net);
      DrainConservesListeners(Step(s, net), net);
    }
  }

  /** A drain starts at most MaxRetries fetches per queued item. */
  lemma {:induction false} DrainBoundsFetches(s: State, net: nat -> Outcome)
    requires AllValid(s.queue)
    ensures Drain(s, net).fetches <= s.fetches + Sum(s.queue, AttemptsLeft)
    ensures Drain(s, net).fetches <= s.fetches + MaxRetries * |s.queue|
    decreases Sum(s.queue, Weight), if s.busy then 0 else 1
  {
    AttemptsBounded(s.queue);
    if !Idle(s) {
      StepMakesProgress(s, net);
      DrainBoundsFetches(Step(s, net), net);
    }
  }

  /** The single-flight rule: a request keeps valid items, one item per URL, and the other invariants. */
  lemma RequestPreservesInvariant(s: State, url: Option<string>, l: Listener, parse: string -> UrlParse, net: nat -> Outcome)
    requires Inv(s.queue)
    ensures Inv(Request(s, url, l, parse, net).queue)
  {
    var scan := ScanFor(s.queue, url);
    ValidIsKeyed(s.queue);
    ScanOfKeyedQueue(s.queue, url);
    if scan.Hit? {
      var it := s.queue[scan.index];
      if !it.onDisk {
        var joined := it.(responses := it.responses + [l]);
        assert Request(s, url, l, parse, net).queue == s.queue[scan.index := joined];
        ItemIsValid(s.queue, scan.index);
        DistinctUrlsUpdate(s.queue, scan.index, joined);
        ElementsOfUpdate(s.queue, scan.index, joined);
      }
    } else {
      var added := FileItem(url, parse).(responses := [l]);
      if added.Valid() {
        DistinctUrlsAppend(s.queue, added);
        DrainPreservesInvariant(s.(queue := s.queue + [added]), net);
      }
    }
  }

  /** Answering one listener directly adds it once to the calls. */
  lemma AnswerAddsOneCall(log: seq<Event>, e: Event)
    ensures Called(log + [e]) == Called(log) + multiset{e.listener}
  {
    CalledConcat(log, [e]);
    assert [e][1..] == [];
  }

  /** A listener that joins a waiting list is one more waiter. */
  lemma JoinAddsOneWaiter(q: seq<ItemVal>, i: nat, l: Listener)
    requires i < |q|
    ensures Waiting(q[i := q[i].(responses := q[i].responses + [l])]) == Waiting(q) + multiset{l}
  {
    var v := q[i].(responses := q[i].responses + [l]);
    var m := multiset(q[i].responses);
    WaitingUpdate(q, i, v);
    assert multiset(v.responses) == m + multiset{l};
    calc {
      Waiting(q[i := v]);
      (Waiting(q[i := v]) + m) - m;
      (Waiting(q) + (m + multiset{l})) - m;
      Waiting(q) + multiset{l};
    }
  }

  /** A new item with one waiter is one more waiter. */
  lemma AppendAddsOneWaiter(q: seq<ItemVal>, v: ItemVal, l: Listener)
    requires v.responses == [l]
    ensures Waiting(q + [v]) == Waiting(q) + multiset{l}
  {
    WaitingConcat(q, [v]);
    assert [v][1..] == [];
  }

  /** A request adds exactly one listener, which ends up waiting or called back once; nobody else is lost or called twice. */
  lemma RequestConservesListeners(s: State, url: Option<string>, l: Listener, parse: string -> UrlParse, net: nat -> Outcome)
    requires Inv(s.queue)
    ensures var r := Request(s, url, l, parse, net);
      Waiting(r.queue) + Called(r.log) == Waiting(s.queue) + Called(s.log) + multiset{l}
  {
    ValidIsKeyed(s.queue);
    ScanOfKeyedQueue(s.queue, url);
    var scan := ScanFor(s.queue, url);
    if scan.Hit? {
      QueuedRequestConservesListeners(s, url, l, parse, net, scan.index);
    } else {
      NewRequestConservesListeners(s, url, l, parse, net);
    }
  }

  lemma QueuedRequestConservesListeners(s: State, url: Option<string>, l: Listener, parse: string -> UrlParse, net: nat -> Outcome, i: nat)
    requires Inv(s.queue) && i < |s.queue| && s.queue[i].urlKey == url
    ensures var r := Request(s, url, l, parse, net);
      Waiting(r.queue) + Called(r.log) == Waiting(s.queue) + Called(s.log) + multiset{l}
  {
    var it := s.queue[i];
    RequestForQueuedUrl(s, url, l, parse, net, i);
    if it.onDisk {
      AnswerAddsOneCall(s.log, Event(l, true, it.diskUrl));
    } else {
      JoinAddsOneWaiter(s.queue, i, l);
    }
  }

  lemma NewRequestConservesListeners(s: State, url: Option<string>, l: Listener, parse: string -> UrlParse, net: nat -> Outcome)
    requires Inv(s.queue) && forall j :: 0 <= j < |s.queue| ==> s.queue[j].urlKey != url
    ensures var r := Request(s, url, l, parse, net);
      Waiting(r.queue) + Called(r.log) == Waiting(s.queue) + Called(s.log) + multiset{l}
  {
    var added := FileItem(url, parse).(responses := [l]);
    RequestForNewUrl(s, url, l, parse, net);
    if added.Valid() {
      var t := s.(queue := s.queue + [added]);
      AppendKeepsInvariant(s.queue, added);
      AppendAddsOneWaiter(s.queue, added, l);
      DrainConservesListeners(t, net);
    } else {
      AnswerAddsOneCall(s.log, Event(l, false, None));
    }
  }


  /**
   * A request for a queued URL never adds an item: the listener is answered
   * (true, diskUrl) at once if the file is on disk and otherwise joins that
   * item's waiters; nothing else changes.
   */
  lemma RequestForQueuedUrl(s: State, url: Option<string>, l: Listener, parse: string -> UrlParse, net: nat -> Outcome, i: nat)
    requires Inv(s.queue) && i < |s.queue| && s.queue[i].urlKey == url
    ensures var r := Request(s, url, l, parse, net);
      |r.queue| == |s.queue| && r.busy == s.busy && r.store == s.store && r.fetches == s.fetches &&
      (s.queue[i].onDisk ==> r.queue == s.queue && r.log == s.log + [Event(l, true, s.queue[i].diskUrl)]) &&
      (!s.queue[i].onDisk ==> r.log == s.log && r.queue == s.queue[i := s.queue[i].(responses := s.queue[i].responses + [l])])
  {
    ValidIsKeyed(s.queue);
    ScanOfKeyedQueue(s.queue, url);
    var scan := ScanFor(s.queue, url);
    assert s.queue[scan.index].urlKey == s.queue[i].urlKey;
    assert scan.index == i;
  }

  /**
   * A request for an unqueued URL whose SAFileItem is invalid answers
   * (false, null) and changes nothing else; a valid one is queued last with
   * the listener as its only waiter, and the queue is drained.
   */
  lemma RequestForNewUrl(s: State, url: Option<string>, l: Listener, parse: string -> UrlParse, net: nat -> Outcome)
    requires Inv(s.queue) && forall j :: 0 <= j < |s.queue| ==> s.queue[j].urlKey != url
    ensures var added := FileItem(url, parse).(responses := [l]);
      (!added.Valid() ==> Request(s, url, l, parse, net) == s.(log := s.log + [Event(l, false, None)])) &&
      (added.Valid() ==> Request(s, url, l, parse, net) == Drain(s.(queue := s.queue + [added]), net))
  {
    ValidIsKeyed(s.queue);
    ScanOfKeyedQueue(s.queue, url);
  }

  // ---------------------------------------------------------------------------
  // A status other than 200 stalls the downloader (see README, Findings)

  /** Once busy, a drain does nothing at all. */
  lemma BusyDrainIsNoOp(s: State, net: nat -> Outcome)
    requires AllValid(s.queue) && s.busy
    ensures Drain(s, net) == s
  {
  }

  /**
   * As written: when the next fetch gets a status other than 200, the drain
   * stops with the downloader busy, no waiter called and every waiter of the
   * queue still waiting.
   */
  lemma Non200Stalls(s: State, net: nat -> Outcome)
    requires Inv(s.queue) && !Idle(s)
    requires s.queue[FirstPending(s.queue).value].HasRetriesRemaining()
    requires net(s.fetches) == Non200
    ensures Drain(s, net).busy
    ensures Drain(s, net).log == s.log && Drain(s, net).queue == s.queue
  {
  }

  /**
   * As written, a stalled downloader never answers a new valid URL: the
   * listener is added to a queue nobody will fetch, and the log does not grow.
   */
  lemma StalledDownloaderNeverAnswers(s: State, url: Option<string>, l: Listener, parse: string -> UrlParse, net: nat -> Outcome)
    requires Inv(s.queue) && s.busy
    requires forall j :: 0 <= j < |s.queue| ==> s.queue[j].urlKey != url
    requires FileItem(url, parse).Valid()
    ensures Request(s, url, l, parse, net).log == s.log
    ensures Request(s, url, l, parse, net).busy
    ensures l in Waiting(Request(s, url, l, parse, net).queue)
  {
    var added := FileItem(url, parse).(responses := [l]);
    RequestForNewUrl(s, url, l, parse, net);
    WaitingConcat(s.queue, [added]);
    assert Waiting([added]) == multiset{l} by {
      assert [added][1..] == [];
    }
  }

  /**
   * As written, a stalled downloader never answers a listener that asks for a
   * queued URL whose file is not on disk: it joins the item's waiters, the log
   * does not grow, and no later drain fetches anything.
   */
  lemma StalledDownloaderStrandsJoiners(s: State, url: Option<string>, l: Listener, parse: string -> UrlParse, net: nat -> Outcome, i: nat)
    requires Inv(s.queue) && s.busy
    requires i < |s.queue| && s.queue[i].urlKey == url && !s.queue[i].onDisk
    ensures var r := Request(s, url, l, parse, net);
      r.log == s.log && r.busy && l in r.queue[i].responses && AllValid(r.queue) && Drain(r, net) == r
  {
    RequestForQueuedUrl(s, url, l, parse, net, i);
    RequestPreservesInvariant(s, url, l, parse, net);
  }

  /** The evident intent: a status other than 200 is a failed attempt, like any other failure. */
  function Retrying(net: nat -> Outcome): (r: nat -> Outcome)
    ensures forall k: nat :: r(k) != Non200
    ensures forall k: nat :: net(k) != Non200 ==> r(k) == net(k)
    ensures forall k: nat :: net(k) == Non200 ==> r(k) == Failed
  {
    (k: nat) => if net(k) == Non200 then Failed else net(k)
  }

  /** Without a status other than 200, no step leaves the downloader busy. */
  lemma StepNeverStalls(s: State, net: nat -> Outcome)
    requires AllValid(s.queue) && !Idle(s) && forall k: nat :: net(k) != Non200
    ensures !Step(s, net).busy
  {
    var i := Next(s);
    var t := s.(fetches := s.fetches + 1);
    if s.queue[i].HasRetriesRemaining() {
      assert net(s.fetches) != Non200;
      assert s.queue[i] in s.queue;
      if net(s.fetches) == Saved {
        assert Step(s, net) == Finish(t, i);
      } else {
        assert Step(s, net) == Retry(t, i);
      }
    } else {
      assert Step(s, net) == GiveUp(s, i);
    }
  }

  /** Without a status other than 200, a drain ends with the downloader free and every queued item on disk. */
  lemma {:induction false} NeverStalledDrainFinishes(s: State, net: nat -> Outcome)
    requires AllValid(s.queue) && !s.busy && forall k: nat :: net(k) != Non200
    ensures !Drain(s, net).busy
    ensures forall v :: v in Drain(s, net).queue ==> v.onDisk
    decreases Sum(s.queue, Weight)
  {
    if Idle(s) {
      forall v | v in s.queue ensures v.onDisk {
        var j :| 0 <= j < |s.queue| && s.queue[j] == v;
      }
    } else {
      StepMakesProgress(s, net);
      StepNeverStalls(s, net);
      NeverStalledDrainFinishes(Step(s, net), net);
    }
  }

  /**
   * With a status other than 200 retried, a drain always finishes with the
   * downloader free, every queued item on disk, nobody waiting, and every
   * listener that was waiting called back exactly once.
   */
  lemma RetryingDrainAnswersEveryone(s: State, net: nat -> Outcome)
    requires Inv(s.queue) && !s.busy
    ensures var r := Drain(s, Retrying(net));
      !r.busy && (forall v :: v in r.queue ==> v.onDisk) &&
      Waiting(r.queue) == multiset{} && Called(r.log) == Called(s.log) + Waiting(s.queue)
  {
    var n := Retrying(net);
    var r := Drain(s, n);
    NeverStalledDrainFinishes(s, n);
    DrainPreservesInvariant(s, n);
    NobodyWaitsOnFinishedQueue(r.queue);
    DrainConservesListeners(s, n);
    calc {
      Called(r.log);
      Waiting(r.queue) + Called(r.log);
      Waiting(s.queue) + Called(s.log);
      Called(s.log) + Waiting(s.queue);
    }
  }

  // ---------------------------------------------------------------------------
  // The downloader object

  class FileDownloader {
    const queue: DownloadQueue
    var currentItem: DownloadItem?
    var busy: bool
    var cleanupOnce: bool
    const isDebug: bool
    /** The app's SharedPreferences file and files directory. */
    var store: Store
    var files: set<string>
    /** Every listener call so far, in order. */
    var log: seq<Event>
    /** How many fetches have been started. */
    var fetches: nat
    const net: nat -> Outcome
    const parse: string -> UrlParse

    /** The downloader's state with the given queue snapshot. */
    ghost function StateOf(vals: seq<ItemVal>): State
      reads this
    {
      State(vals, busy, store, files, log, fetches)
    }

    /** A downloader with an empty queue, not busy, no cleanup done yet. */
    constructor (isDebug: bool, store: Store, files: set<string>, net: nat -> Outcome, parse: string -> UrlParse)
      ensures Inv(ValsOf(queue.items)) && fresh(queue)
      ensures StateOf(ValsOf(queue.items)) == State([], false, store, files, [], 0)
      ensures !cleanupOnce && this.isDebug == isDebug && this.net == net && this.parse == parse
    {
      this.isDebug, this.store, this.files, this.net, this.parse := isDebug, store, files, net, parse;
      queue := new DownloadQueue();
      currentItem, busy, cleanupOnce, log, fetches := null, false, false, [], 0;
    }

    /**
     * `downloadFileFrom`: with no context the listener gets (false, null) and
     * nothing else happens; otherwise the cleanup runs on the first call (never
     * in debug mode) and the request is handled as `Request` says.
     */
    method DownloadFileFrom(hasContext: bool, url: Option<string>, listener: Option<Listener>)
      requires Inv(ValsOf(queue.items))
      modifies this, queue, queue.items
      ensures Inv(ValsOf(queue.items))
      ensures !hasContext ==>
        StateOf(ValsOf(queue.items)) == old(StateOf(ValsOf(queue.items))).(log := old(log) + [Event(listener.GetOr(NoOp), false, None)]) &&
        cleanupOnce == old(cleanupOnce)
      ensures hasContext ==> cleanupOnce == (old(cleanupOnce) || !isDebug)
      ensures hasContext ==>
        StateOf(ValsOf(queue.items)) == Request(if !old(cleanupOnce) && !isDebug then Cleaned(old(StateOf(ValsOf(queue.items)))) else old(StateOf(ValsOf(queue.items))),
                         url, listener.GetOr(NoOp), parse, net)
    {
      var l := listener.GetOr(NoOp);
      if !hasContext {
        log := log + [Event(l, false, None)];
        return;
      }
      if !cleanupOnce && !isDebug {
        cleanupOnce := true;
        CleanupOnce();
      }
      Handle(url, l);
    }

    /** The one-time cleanup, as a change of the downloader's state. */
    method CleanupOnce()
      modifies this`store, this`files
      ensures StateOf(ValsOf(queue.items)) == Cleaned(old(StateOf(ValsOf(queue.items))))
    {
      Cleanup();
    }

    /** A request with a context, after the cleanup: see `Request`. */
    method Handle(url: Option<string>, l: Listener)
      requires Inv(ValsOf(queue.items))
      modifies this`currentItem, this`busy, this`fetches, this`store, this`files, this`log, queue, queue.items
      ensures Inv(ValsOf(queue.items))
      ensures StateOf(ValsOf(queue.items)) == Request(old(StateOf(ValsOf(queue.items))), url, l, parse, net)
    {
      ghost var q := ValsOf(queue.items);
      var found, _ := queue.HasItemForUrl(url);
      assert ValsOf(queue.items) == q;
      ScanOfValidQueue(q, url);
      if found {
        Join(url, l);
      } else {
        Enqueue(url, l);
      }
    }

    /** The URL is queued: answer from disk, or add the listener to the item's waiters. */
    method Join(url: Option<string>, l: Listener)
      requires Inv(ValsOf(queue.items)) && ScanFor(ValsOf(queue.items), url).Hit?
      modifies this`log, queue.items
      ensures Inv(ValsOf(queue.items))
      ensures StateOf(ValsOf(queue.items)) == Request(old(StateOf(ValsOf(queue.items))), url, l, parse, net)
    {
      ghost var s := StateOf(ValsOf(queue.items));
      ghost var i := ScanFor(s.queue, url).index;
      DistinctItems(queue.items);
      var item, _ := queue.ItemForUrl(url);
      RequestForQueuedUrl(s, url, l, parse, net, i);
      RequestPreservesInvariant(s, url, l, parse, net);
      ghost var r := Request(s, url, l, parse, net);
      var isOnDisk := item != null && item.onDisk;
      if isOnDisk {
        log := log + [Event(l, true, item.diskUrl)];
      } else if item != null {
        AddWaiter(item, i, l);
      }
      assert StateOf(ValsOf(queue.items)) == r;
      assert Inv(r.queue);
    }

    /** `addResponse` on the item at position i, as an update of its snapshot. */
    method AddWaiter(item: DownloadItem, ghost i: nat, l: Listener)
      requires i < |queue.items| && item == queue.items[i] && NoAlias(queue.items)
      modifies item
      ensures ValsOf(queue.items) ==
        old(ValsOf(queue.items))[i := old(item.Val()).(responses := old(item.responses) + [l])]
    {
      ghost var q := ValsOf(queue.items);
      item.AddResponse(Some(l));
      SnapshotUpdate(q, ValsOf(queue.items), i);
    }

    /** The URL is not queued: a new item with the listener waiting, queued and drained if valid, refused otherwise. */
    method Enqueue(url: Option<string>, l: Listener)
      requires Inv(ValsOf(queue.items)) && ScanFor(ValsOf(queue.items), url).Miss?
      modifies this`currentItem, this`busy, this`fetches, this`store, this`files, this`log, queue, queue.items
      ensures Inv(ValsOf(queue.items))
      ensures StateOf(ValsOf(queue.items)) == Request(old(StateOf(ValsOf(queue.items))), url, l, parse, net)
    {
      ghost var s := StateOf(ValsOf(queue.items));
      var item := new DownloadItem.FromFileUrl(url, parse);
      item.AddResponse(Some(l));
      assert item.Val() == FileItem(url, parse).(responses := [l]);
      assert StateOf(ValsOf(queue.items)) == s;
      RequestForNewUrl(s, url, l, parse, net);
      if item.IsValid() {
        Launch(item);
      } else {
        log := log + [Event(l, false, None)];
      }
    }

    /** A new valid item: queue it and drain the queue. */
    method Launch(item: DownloadItem)
      requires Inv(ValsOf(queue.items)) && item.IsValid() && !item.onDisk && item.nrRetries == 0
      requires forall j :: 0 <= j < |queue.items| ==> queue.items[j].urlKey != item.urlKey
      modifies this`currentItem, this`busy, this`fetches, this`store, this`files, this`log, queue, queue.items, item
      ensures Inv(ValsOf(queue.items))
      ensures StateOf(ValsOf(queue.items)) ==
        Drain(old(StateOf(ValsOf(queue.items))).(queue := old(ValsOf(queue.items)) + [old(item.Val())]), net)
    {
      Admit(item);
      CheckOnQueue();
    }

    /** `addToQueue` of a valid item whose URL is not queued yet. */
    method Admit(item: DownloadItem)
      requires Inv(ValsOf(queue.items)) && item.IsValid() && !item.onDisk && item.nrRetries == 0
      requires forall j :: 0 <= j < |queue.items| ==> queue.items[j].urlKey != item.urlKey
      modifies queue
      ensures queue.items == old(queue.items) + [item]
      ensures ValsOf(queue.items) == old(ValsOf(queue.items)) + [item.Val()]
      ensures Inv(ValsOf(queue.items))
    {
      ghost var q := ValsOf(queue.items);
      queue.AddToQueue(item);
      ValsOfAppend(old(queue.items), item);
      AppendKeepsInvariant(q, item.Val());
    }

    /**
     * `checkOnQueue`: while not busy and some queued item is not on disk,
     * take the first such item and act on it (see `Step`).
     */
    method CheckOnQueue()
      requires Inv(ValsOf(queue.items))
      modifies this`currentItem, this`busy, this`fetches, this`store, this`files, this`log, queue, queue.items
      ensures Inv(ValsOf(queue.items))
      ensures StateOf(ValsOf(queue.items)) == Drain(old(StateOf(ValsOf(queue.items))), net)
      ensures forall x :: x in queue.items ==> x in old(queue.items)
    {
      ghost var goal := Drain(StateOf(ValsOf(queue.items)), net);
      while !busy && |queue.items| > 0
        invariant Inv(ValsOf(queue.items))
        invariant Drain(StateOf(ValsOf(queue.items)), net) == goal
        invariant forall x :: x in queue.items ==> x in old(queue.items)
        decreases Sum(ValsOf(queue.items), Weight), if busy then 0 else 1
      {
        ghost var s := StateOf(ValsOf(queue.items));
        label scan:
        var next := queue.GetNext();
        ValsOfUnchanged@scan(queue.items);
        if next == null {
          break;
        }
        assert next in old(queue.items) by { assert next in queue.items; }
        Attempt(next);
        StepMakesProgress(s, net);
        DrainStep(s, net);
      }
      DrainIdle(StateOf(ValsOf(queue.items)), net);
    }

    /** One activation of `checkOnQueue` on the next item: fetch it, or give it up. */
    method Attempt(item: DownloadItem)
      requires Inv(ValsOf(queue.items)) && !busy
      requires FirstPending(ValsOf(queue.items)).Some?
      requires item == queue.items[FirstPending(ValsOf(queue.items)).value]
      modifies this`currentItem, this`busy, this`fetches, this`store, this`files, this`log, queue, item
      ensures Inv(ValsOf(queue.items))
      ensures StateOf(ValsOf(queue.items)) == Step(old(StateOf(ValsOf(queue.items))), net)
      ensures forall x :: x in queue.items ==> x in old(queue.items)
    {
      ghost var s := StateOf(ValsOf(queue.items));
      ghost var i := FirstPending(s.queue).value;
      currentItem := item;
      DistinctItems(queue.items);
      if item.HasRetriesRemaining() {
        Fetch(item, i);
      } else {
        Discard(item, i);
        StepGivesUp(s, net);
      }
      StepPreservesInvariant(s, net);
      assert Inv(ValsOf(queue.items)) by { assert Inv(StateOf(ValsOf(queue.items)).queue); }
    }

    /** The next item has retries left: mark the downloader busy, fetch, and act on the outcome. */
    method Fetch(item: DownloadItem, ghost i: nat)
      requires AllValid(ValsOf(queue.items)) && !busy && NoAlias(queue.items)
      requires FirstPending(ValsOf(queue.items)) == Some(i) && i < |queue.items|
      requires item == queue.items[i] && item.HasRetriesRemaining()
      modifies this`busy, this`fetches, this`store, this`files, this`log, queue, item
      ensures StateOf(ValsOf(queue.items)) == Step(old(StateOf(ValsOf(queue.items))), net)
      ensures forall x :: x in queue.items ==> x in old(queue.items)
    {
      ghost var s := StateOf(ValsOf(queue.items));
      busy := true;
      var outcome := net(fetches);
      fetches := fetches + 1;
      ValsOfUnchanged(queue.items);
      assert item.Val() == s.queue[i];
      match outcome {
        case Saved =>
          StepSaves(s, net);
          Save(item, i);
          assert StateOf(ValsOf(queue.items)) == Finish(s.(fetches := s.fetches + 1), i);
        case Failed =>
          StepFails(s, net);
          Fail(item, i);
          assert ValsOf(queue.items) == MoveAt(s.queue, i, Retried(s.queue[i]));
          assert StateOf(ValsOf(queue.items)) == Retry(s.(fetches := s.fetches + 1), i);
        case Non200 =>
          // the worker returns early: busy stays set and nobody is called (see README, Findings)
          StepStalls(s, net);
      }
    }

    /** The file was written: record it, call every waiter with (true, diskUrl), mark the item on disk, free the downloader. */
    method Save(item: DownloadItem, ghost i: nat)
      requires i < |queue.items| && item == queue.items[i] && item.IsValid() && NoAlias(queue.items)
      modifies this`store, this`files, this`log, this`busy, item
      ensures StateOf(ValsOf(queue.items)) == Finish(old(StateOf(ValsOf(queue.items))).(busy := false), i)
    {
      ghost var q := ValsOf(queue.items);
      store := store[item.key := Text(item.diskUrl.value)];
      files := files + {item.diskUrl.value};
      NotifyAll(item.responses, true, item.diskUrl);
      item.SetOnDisk(true);
      item.ClearResponses();
      busy := false;
      SnapshotUpdate(q, ValsOf(queue.items), i);
    }

    /** The fetch threw: free the downloader, count the failure, and move the item to the back of the queue. */
    method Fail(item: DownloadItem, ghost i: nat)
      requires i < |queue.items| && item == queue.items[i] && NoAlias(queue.items)
      modifies this`busy, item, queue
      ensures !busy
      ensures ValsOf(queue.items) == MoveAt(old(ValsOf(queue.items)), i, Retried(old(item.Val())))
      ensures forall x :: x in queue.items ==> x in old(queue.items)
    {
      ghost var q := ValsOf(queue.items);
      ghost var v := Retried(q[i]);
      busy := false;
      item.IncrementNrRetries();
      item.SetOnDisk(false);
      assert item.Val() == v;
      SnapshotUpdate(q, ValsOf(queue.items), i);
      RemoveAtIgnoresReplaced(q, i, v, v);
      Requeue(item, i);
    }

    /** `moveToBackOfQueue` on the item at position i, as a move of its snapshot. */
    method Requeue(item: DownloadItem, ghost i: nat)
      requires i < |queue.items| && item == queue.items[i] && NoAlias(queue.items)
      modifies queue
      ensures ValsOf(queue.items) == MoveAt(old(ValsOf(queue.items)), i, item.Val())
      ensures forall x :: x in queue.items ==> x in old(queue.items)
    {
      ghost var items := queue.items;
      ValsOfMoveToBack(items, i);
      queue.MoveToBackOfQueue(item);
      assert queue.items == MoveToBack(items, item);
      ValsOfUnchanged(queue.items);
    }

    /** No retries left: call every waiter with (false, null), clear them, and drop the item. */
    method Discard(item: DownloadItem, ghost i: nat)
      requires i < |queue.items| && item == queue.items[i] && NoAlias(queue.items)
      modifies this`log, item, queue
      ensures StateOf(ValsOf(queue.items)) == GiveUp(old(StateOf(ValsOf(queue.items))), i)
      ensures forall x :: x in queue.items ==> x in old(queue.items)
    {
      ghost var q := ValsOf(queue.items);
      NotifyAll(item.responses, false, None);
      item.ClearResponses();
      SnapshotUpdate(q, ValsOf(queue.items), i);
      RemoveAtIgnoresReplaced(q, i, item.Val(), item.Val());
      Drop(item, i);
    }

    /** `removeFromQueue` on the item at position i, as a removal of its snapshot. */
    method Drop(item: DownloadItem, ghost i: nat)
      requires i < |queue.items| && item == queue.items[i] && NoAlias(queue.items)
      modifies queue
      ensures ValsOf(queue.items) == RemoveAt(old(ValsOf(queue.items)), i)
      ensures forall x :: x in queue.items ==> x in old(queue.items)
    {
      ghost var before := queue.items;
      ValsOfRemove(before, i);
      queue.RemoveFromQueue(item);
      assert queue.items == RemoveFirst(before, before[i]);
      ValsOfUnchanged(queue.items);
    }

    /** Calls every waiter in list order with the same result. */
    method NotifyAll(waiters: seq<Listener>, success: bool, diskUrl: Option<string>)
      modifies this`log
      ensures log == old(log) + Notify(waiters, success, diskUrl)
    {
      var k := 0;
      while k < |waiters|
        invariant 0 <= k <= |waiters|
        invariant log == old(log) + Notify(waiters[..k], success, diskUrl)
      {
        NotifyPrefix(waiters, k, success, diskUrl);
        log := log + [Event(waiters[k], success, diskUrl)];
        k := k + 1;
      }
      assert waiters[..k] == waiters;
    }

    /**
     * `cleanup`: for every key of the store, in no particular order, a string
     * entry has its file deleted and leaves the store; a non-string entry makes
     * `getString` throw ClassCastException, which is caught, so it stays.
     */
    method Cleanup()
      modifies this`store, this`files
      ensures store == WithoutText(old(store))
      ensures files == old(files) - FileNames(old(store))
    {
      ghost var store0, files0 := store, files;
      ghost var done: Store := map[];
      var keys := store.Keys;
      while keys != {}
        invariant keys <= store0.Keys
        invariant forall k :: k in done <==> k in store0 && k !in keys
        invariant forall k :: k in done ==> done[k] == store0[k]
        invariant forall k :: k in store <==> k in store0 && (k in keys || store0[k].Other?)
        invariant forall k :: k in store ==> store[k] == store0[k]
        invariant files == files0 - FileNames(done)
        decreases keys
      {
        var key :| key in keys;
        FileNamesExtend(done, key, store0[key]);
        done := done[key := store0[key]];
        keys := keys - {key};
        match store[key] {
          case Text(name) =>
            files := files - {name};
            store := store - {key};
          case Other =>
        }
      }
      assert store == WithoutText(store0);
      assert done == store0;
    }
  }
}
