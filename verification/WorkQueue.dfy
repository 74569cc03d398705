/** The dispatcher's work list and its one worker thread.

    The list is a stack guarded by a mutex. A step of the worker is what it does between
    acquiring the mutex and giving it up, or the processing it does in between; everybody
    else's steps are atomic because they hold the mutex throughout. */
module WorkQueue {

  datatype Worker<T> =
    | NotStarted
    | Starting             // the thread has not yet acquired the mutex
    | Processing(item: T)  // working on an item, mutex released
    | Returning            // has answered the item and wants the mutex back
    | Sleeping             // waits on the condition variable
    | Exited

  datatype Queue<T> = Queue(list: seq<T>, cancelled: bool, worker: Worker<T>)

  /** PostRequest: an item posted after cancellation is refused on the spot. */
  function Post<T>(q: Queue<T>, item: T): Queue<T> {
    if q.cancelled then q else q.(list := q.list + [item])
  }

  /** The inner loop's test: take the newest item, or else wait. Waiting ends at once when
      the queue is cancelled, and then so does the thread. */
  function TakeOrWait<T>(q: Queue<T>): Queue<T> {
    if q.list != [] then
      q.(list := q.list[..|q.list| - 1], worker := Processing(q.list[|q.list| - 1]))
    else if q.cancelled then q.(worker := Exited)
    else q.(worker := Sleeping)
  }

  /** The worker acquires the mutex and runs until it gives it up. A worker that is
      processing does not; a sleeping one goes on only if there is an item or a
      cancellation, and looks at the cancellation first. */
  function Turn<T>(q: Queue<T>): Queue<T> {
    match q.worker
    case Starting => if q.cancelled then q.(worker := Exited) else TakeOrWait(q)
    case Returning => TakeOrWait(q)
    case Sleeping =>
      if q.cancelled then q.(worker := Exited)
      else if q.list == [] then q
      else TakeOrWait(q)
    case _ => q
  }

  predicate Stopped<T>(q: Queue<T>) {
    q.cancelled && (q.worker == NotStarted || q.worker == Exited)
  }

  // ---------------------------------------------------------------- what a turn does

  /** A worker that gets the mutex takes the newest item if there is one and it is not told
      to leave first: a cancellation is looked at by a starting or woken worker, but not by
      one that returns from an item. It sleeps exactly when there is nothing to do, leaves
      exactly when cancelled, and does nothing else. */
  lemma TurnMeaning<T>(q: Queue<T>)
    ensures q.list != [] && (q.worker == Returning || (!q.cancelled && (q.worker == Starting || q.worker == Sleeping))) ==>
      && Turn(q).worker.Processing? && Turn(q).list + [Turn(q).worker.item] == q.list
      && Turn(q).cancelled == q.cancelled
    ensures Turn(q).worker == Sleeping <==>
      q.list == [] && !q.cancelled && (q.worker == Starting || q.worker == Returning || q.worker == Sleeping)
    ensures Turn(q).worker == Exited <==>
      || q.worker == Exited
      || (q.cancelled && (q.worker == Starting || q.worker == Sleeping || (q.worker == Returning && q.list == [])))
    ensures !Turn(q).worker.Processing? ==> Turn(q).list == q.list && Turn(q).cancelled == q.cancelled
    ensures q.worker == NotStarted || q.worker.Processing? || q.worker == Exited ==> Turn(q) == q
  {
    if q.list != [] {
      assert q.list == q.list[..|q.list| - 1] + [q.list[|q.list| - 1]];
    }
  }

  // ---------------------------------------------------------------- the ledger

  datatype Event<T> =
    | Posted(item: T)
    | Started
    | Turned
    | Answered   // the worker's reply callback
    | Cancelled  // Stop
    | Drained    // one round of the destructor's loop

  /** A queue with the items ever posted and those whose callback was called. */
  datatype Ledger<T> = Ledger(queue: Queue<T>, posted: multiset<T>, answered: multiset<T>)

  function Open<T>(): Ledger<T> {
    Ledger(Queue([], false, NotStarted), multiset{}, multiset{})
  }

  function Record<T>(l: Ledger<T>, e: Event<T>): Ledger<T> {
    var q := l.queue;
    match e
    case Posted(item) =>
      Ledger(Post(q, item), l.posted + multiset{item},
             if q.cancelled then l.answered + multiset{item} else l.answered)
    case Started => if q.worker == NotStarted then l.(queue := q.(worker := Starting)) else l
    case Turned => l.(queue := Turn(q))
    case Answered =>
      if q.worker.Processing? then
        l.(queue := q.(worker := Returning), answered := l.answered + multiset{q.worker.item})
      else l
    case Cancelled => l.(queue := q.(cancelled := true))
    case Drained =>
      if Stopped(q) && q.list != [] then
        var last := |q.list| - 1;
        l.(queue := q.(list := q.list[..last]), answered := l.answered + multiset{q.list[last]})
      else l
  }

  function RecordAll<T>(events: seq<Event<T>>): Ledger<T> {
    if events == [] then Open()
    else Record(RecordAll(events[..|events| - 1]), events[|events| - 1])
  }

  /** Items waiting in the list or being processed. */
  function Unanswered<T>(q: Queue<T>): multiset<T> {
    multiset(q.list) + if q.worker.Processing? then multiset{q.worker.item} else multiset{}
  }

  /** Nothing is lost and nothing is answered twice. */
  ghost predicate Balanced<T>(l: Ledger<T>) {
    l.posted == l.answered + Unanswered(l.queue)
  }

  lemma SplitLast<T>(s: seq<T>)
    requires s != []
    ensures multiset(s) == multiset(s[..|s| - 1]) + multiset{s[|s| - 1]}
  {
    assert s == s[..|s| - 1] + [s[|s| - 1]];
  }

  lemma TakeOrWaitKeepsItems<T>(q: Queue<T>)
    requires !q.worker.Processing?
    ensures Unanswered(TakeOrWait(q)) == multiset(q.list)
  {
    if q.list != [] {
      SplitLast(q.list);
    }
  }

  lemma TurnKeepsItems<T>(q: Queue<T>)
    ensures Unanswered(Turn(q)) == Unanswered(q)
  {
    hide TakeOrWait;
    if !q.worker.Processing? {
      TakeOrWaitKeepsItems(q);
    }
  }

  lemma RecordBalanced<T>(l: Ledger<T>, e: Event<T>)
    requires Balanced(l)
    ensures Balanced(Record(l, e))
  {
    hide Turn, Unanswered;
    match e
    case Posted(item) =>
      PostKeepsItems(l.queue, item);
    case Turned =>
      TurnKeepsItems(l.queue);
    case Drained =>
      if Stopped(l.queue) && l.queue.list != [] {
        DrainKeepsItems(l.queue);
      }
    case _ =>
      SameItems(l.queue);
  }

  lemma PostKeepsItems<T>(q: Queue<T>, item: T)
    ensures Unanswered(Post(q, item)) == Unanswered(q) + if q.cancelled then multiset{} else multiset{item}
  {
    assert multiset(q.list + [item]) == multiset(q.list) + multiset{item};
  }

  lemma DrainKeepsItems<T>(q: Queue<T>)
    requires q.list != []
    ensures Unanswered(q) == Unanswered(q.(list := q.list[..|q.list| - 1])) + multiset{q.list[|q.list| - 1]}
  {
    SplitLast(q.list);
  }

  /** Where the worker is matters only if it has an item in its hands. */
  lemma SameItems<T>(q: Queue<T>)
    ensures Unanswered(q.(cancelled := true)) == Unanswered(q)
    ensures q.worker == NotStarted ==> Unanswered(q.(worker := Starting)) == Unanswered(q)
    ensures q.worker.Processing? ==> Unanswered(q) == Unanswered(q.(worker := Returning)) + multiset{q.worker.item}
  {
  }

  /** In every run of posts, worker steps, cancellation and destruction, the callbacks
      called and the items still outstanding are together exactly the items posted. */
  lemma {:induction false} EveryRunBalanced<T>(events: seq<Event<T>>)
    ensures Balanced(RecordAll(events))
  {
    if events != [] {
      EveryRunBalanced(events[..|events| - 1]);
      RecordBalanced(RecordAll(events[..|events| - 1]), events[|events| - 1]);
    }
  }

  /** After the worker is gone and the destructor's loop is done, every item posted has
      been answered once for each time it was posted. */
  lemma FinallyAllAnswered<T>(events: seq<Event<T>>)
    requires Stopped(RecordAll(events).queue) && RecordAll(events).queue.list == []
    ensures RecordAll(events).answered == RecordAll(events).posted
  {
    EveryRunBalanced(events);
  }

  // ---------------------------------------------------------------- the order of the list

  /** `posts[k]` is where, among the events, the item at place `k` of the list was posted;
      later places were posted later. */
  ghost predicate PostedAt<T>(events: seq<Event<T>>, list: seq<T>, posts: seq<nat>) {
    && |posts| == |list|
    && (forall k :: 0 <= k < |posts| ==> posts[k] < |events| && events[posts[k]] == Posted(list[k]))
    && forall j, k :: 0 <= j < k < |posts| ==> posts[j] < posts[k]
  }

  /** In every run the list holds items in the order they were posted. Turns and the
      destructor take from its end, so they take the newest first. */
  lemma {:induction false} ListIsInOrder<T>(events: seq<Event<T>>) returns (posts: seq<nat>)
    ensures PostedAt(events, RecordAll(events).queue.list, posts)
  {
    hide Record;
    if events == [] {
      posts := [];
    } else {
      var front, e := events[..|events| - 1], events[|events| - 1];
      posts := ListIsInOrder(front);
      var before, after := RecordAll(front).queue.list, RecordAll(events).queue.list;
      assert PostedAt(events, before, posts) by {
        assert forall k :: 0 <= k < |front| ==> front[k] == events[k];
      }
      ListStep(RecordAll(front), e);
      if |after| > |before| {
        posts := posts + [|front|];
      } else {
        posts := posts[..|after|];
      }
    }
  }

  /** An event leaves the list alone, puts the item it posts at its end, or takes its end. */
  lemma ListStep<T>(l: Ledger<T>, e: Event<T>)
    ensures var before, after := l.queue.list, Record(l, e).queue.list;
            || (e.Posted? && !l.queue.cancelled && after == before + [e.item])
            || after <= before
    ensures e.Posted? && !l.queue.cancelled ==> Record(l, e).queue.list == l.queue.list + [e.item]
  {
  }

  /** One round of the destructor answers the newest item left, once the worker is gone. */
  lemma DrainMeaning<T>(l: Ledger<T>)
    ensures var d := Record(l, Drained);
            if l.queue.cancelled && (l.queue.worker == NotStarted || l.queue.worker == Exited) && l.queue.list != []
            then exists item :: d.queue.list + [item] == l.queue.list && d.answered == l.answered + multiset{item}
            else d == l
  {
    if l.queue.list != [] {
      var last := |l.queue.list| - 1;
      assert l.queue.list == l.queue.list[..last] + [l.queue.list[last]];
    }
  }

  // ---------------------------------------------------------------- the class

  datatype Callback<T> = Callback(item: T, status: bool)

  /** The callbacks of a list answered with failures, newest first. */
  ghost function Refusals<T>(list: seq<T>): seq<Callback<T>> {
    if list == [] then []
    else [Callback(list[|list| - 1], false)] + Refusals(list[..|list| - 1])
  }

  class MessageDispatcher<T(==)> {
    var messageList: seq<T>
    var cancelFlag: bool
    var worker: Worker<T>          // where the worker thread is
    ghost var calls: seq<Callback<T>>  // the reply callbacks called

    constructor ()
      ensures State() == Open<T>().queue && calls == []
    {
      messageList, cancelFlag, worker := [], false, NotStarted;
      calls := [];
    }

    function State(): Queue<T>
      reads this
    {
      Queue(messageList, cancelFlag, worker)
    }

    method PostRequest(item: T)
      modifies this
      ensures State() == Post(old(State()), item)
      ensures calls == old(calls) + if old(cancelFlag) then [Callback(item, false)] else []
    {
      if cancelFlag {
        calls := calls + [Callback(item, false)];
        return;
      }
      messageList := messageList + [item];
    }

    /** The worker's loop, from acquiring the mutex to giving it up. */
    method TakeTurn()
      modifies this`messageList, this`worker
      ensures State() == Turn(old(State()))
    {
      if worker.Processing? || worker == NotStarted || worker == Exited {
        return;
      }
      // the wait's predicate
      if worker == Sleeping && messageList == [] && !cancelFlag {
        return;
      }
      // the outer loop's test, which a returning worker does not come past
      if worker != Returning && cancelFlag {
        worker := Exited;
        return;
      }
      if messageList != [] {
        worker := Processing(messageList[|messageList| - 1]);
        messageList := messageList[..|messageList| - 1];
        return;
      }
      // the list is empty: wait, or leave both loops
      worker := if cancelFlag then Exited else Sleeping;
    }

    /** The worker calls the reply callback of the item it has processed. */
    method Reply(status: bool)
      requires worker.Processing?
      modifies this`worker, this`calls
      ensures calls == old(calls) + [Callback(old(worker).item, status)]
      ensures State() == old(State()).(worker := Returning)
    {
      calls := calls + [Callback(worker.item, status)];
      worker := Returning;
    }

    method Stop()
      modifies this`cancelFlag
      ensures State() == old(State()).(cancelled := true)
    {
      cancelFlag := true;
    }

    /** The destructor, once the worker has been joined. Whatever is left is answered with
        a failure, newest first. */
    method Destroy()
      requires worker == NotStarted || worker == Exited
      modifies this
      ensures Stopped(State()) && messageList == []
      ensures calls == old(calls) + Refusals(old(messageList))
    {
      Stop();
      while messageList != []
        invariant worker == old(worker) && cancelFlag
        invariant calls + Refusals(messageList) == old(calls) + Refusals(old(messageList))
        decreases |messageList|
      {
        var last := messageList[|messageList| - 1];
        calls := calls + [Callback(last, false)];
        messageList := messageList[..|messageList| - 1];
      }
    }
  }
}
