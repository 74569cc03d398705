/** The WSL helper's reference counting. The first helper serves and counts sessions; each
    later one announces its session by a signal, waits for it to end, and releases it by
    another signal. The session that started the first helper is released the same way.

    No signal is merged with another. Signals on their way are delivered one at a time, in
    any order; what the order they were sent in brings about is proved of the runs that
    keep it. */
module Refcount {

  datatype Signal = AddRef(session: nat) | Release(session: nat)

  datatype Group = Group(
    refcount: int,
    running: bool,          // the serving process has not left through its counter
    pending: seq<Signal>,   // signals on their way, in the order sent
    sessions: set<nat>,     // announced by their helpers and not yet released by them
    counted: set<nat>,      // the same as far as signals have been delivered
    used: set<nat>)

  /** `at` is the signal's place among those on their way. */
  datatype Event = Join(session: nat) | Leave(session: nat) | Deliver(at: nat)

  function Serve(own: nat): Group {
    Group(1, true, [], {own}, {own}, {own})
  }

  /** A helper that finds the serving process gone does not join this group. */
  function Next(g: Group, e: Event): Group {
    match e
    case Join(s) =>
      if g.running && s !in g.used then
        g.(pending := g.pending + [AddRef(s)], sessions := g.sessions + {s}, used := g.used + {s})
      else g
    case Leave(s) =>
      if s in g.sessions then g.(pending := g.pending + [Release(s)], sessions := g.sessions - {s}) else g
    case Deliver(at) =>
      if at >= |g.pending| || !g.running then g
      else Handle(g.(pending := g.pending[..at] + g.pending[at + 1..]), g.pending[at])
  }

  /** The signal handlers. */
  function Handle(g: Group, signal: Signal): Group {
    match signal
    case AddRef(s) => g.(refcount := g.refcount + 1, counted := g.counted + {s})
    case Release(s) =>
      g.(refcount := g.refcount - 1, counted := g.counted - {s}, running := g.refcount - 1 != 0)
  }

  function Run(own: nat, events: seq<Event>): Group {
    if events == [] then Serve(own) else Next(Run(own, events[..|events| - 1]), events[|events| - 1])
  }

  // ---------------------------------------------------------------- the sessions

  /** Event `i` is the announcement of a session by a helper that finds the server running. */
  ghost predicate JoinedAt(own: nat, events: seq<Event>, i: nat, s: nat) {
    && i < |events| && events[i] == Join(s)
    && Run(own, events[..i]).running && s !in Run(own, events[..i]).used
  }

  ghost predicate StaysFrom(events: seq<Event>, i: nat, s: nat) {
    forall j :: i <= j < |events| ==> events[j] != Leave(s)
  }

  /** In every run the sessions are the server's own and those announced, as long as they
      have not ended. */
  lemma {:induction false} SessionsAre(own: nat, events: seq<Event>, s: nat)
    ensures s in Run(own, events).sessions <==>
      (s == own && StaysFrom(events, 0, s)) || exists i :: JoinedAt(own, events, i, s) && StaysFrom(events, i, s)
    ensures s in Run(own, events).used <==> s == own || exists i :: JoinedAt(own, events, i, s)
  {
    if events != [] {
      var n := |events| - 1;
      var front := events[..n];
      SessionsAre(own, front, s);
      forall i | 0 <= i < n ensures JoinedAt(own, front, i, s) <==> JoinedAt(own, events, i, s) {
        assert front[..i] == events[..i];
      }
      forall i | 0 <= i <= n ensures StaysFrom(events, i, s) <==> StaysFrom(front, i, s) && events[n] != Leave(s) {
        StaysOneMore(events, i, s);
      }
      LastEvent(own, events, s);
    }
  }

  lemma StaysOneMore(events: seq<Event>, i: nat, s: nat)
    requires events != [] && i < |events|
    ensures StaysFrom(events, i, s) <==> StaysFrom(events[..|events| - 1], i, s) && events[|events| - 1] != Leave(s)
  {
    var front := events[..|events| - 1];
    assert forall j :: 0 <= j < |front| ==> front[j] == events[j];
  }

  lemma LastEvent(own: nat, events: seq<Event>, s: nat)
    requires events != []
    ensures var n := |events| - 1;
            var g, d := Run(own, events[..n]), Run(own, events);
            && (s in d.used <==> s in g.used || JoinedAt(own, events, n, s))
            && (s in d.sessions <==> (s in g.sessions && events[n] != Leave(s)) || JoinedAt(own, events, n, s))
            && (JoinedAt(own, events, n, s) ==> StaysFrom(events, n, s))
  {
  }

  // ---------------------------------------------------------------- delivery in any order

  /** By how many sessions the announcements among some signals outnumber the releases. */
  function Net(signals: seq<Signal>): int {
    if signals == [] then 0 else (if signals[0].AddRef? then 1 else -1) + Net(signals[1..])
  }

  lemma {:induction false} NetConcat(a: seq<Signal>, b: seq<Signal>)
    ensures Net(a + b) == Net(a) + Net(b)
  {
    if a == [] {
      assert a + b == b;
    } else {
      assert (a + b)[1..] == a[1..] + b;
      NetConcat(a[1..], b);
    }
  }

  lemma NetOne(signal: Signal)
    ensures Net([signal]) == if signal.AddRef? then 1 else -1
  {
  }

  lemma NetWithout(signals: seq<Signal>, at: nat)
    requires at < |signals|
    ensures Net(signals) == Net(signals[..at] + signals[at + 1..]) + if signals[at].AddRef? then 1 else -1
  {
    assert signals == signals[..at] + ([signals[at]] + signals[at + 1..]);
    NetConcat(signals[..at], [signals[at]] + signals[at + 1..]);
    NetConcat([signals[at]], signals[at + 1..]);
    NetOne(signals[at]);
    NetConcat(signals[..at], signals[at + 1..]);
  }

  /** What the counter says and what the signals on their way will still do to it make up
      the sessions. */
  ghost predicate Counting(g: Group) {
    && g.refcount + Net(g.pending) == |g.sessions|
    && 0 <= g.refcount && (g.running <==> g.refcount > 0)
    && g.sessions <= g.used
  }

  lemma NextCounting(g: Group, e: Event)
    requires Counting(g)
    ensures Counting(Next(g, e))
  {
    hide Net;
    match e
    case Join(s) =>
      NetConcat(g.pending, [AddRef(s)]);
      NetOne(AddRef(s));
    case Leave(s) =>
      NetConcat(g.pending, [Release(s)]);
      NetOne(Release(s));
    case Deliver(at) =>
      if at < |g.pending| {
        NetWithout(g.pending, at);
      }
  }

  lemma {:induction false} RunCounting(own: nat, events: seq<Event>)
    ensures Counting(Run(own, events))
  {
    hide Counting, Next;
    if events == [] {
      ServeCounting(own);
    } else {
      RunCounting(own, events[..|events| - 1]);
      NextCounting(Run(own, events[..|events| - 1]), events[|events| - 1]);
    }
  }

  lemma ServeCounting(own: nat)
    ensures Counting(Serve(own))
  {
    assert |{own}| == 1;
  }

  /** In every run, in whatever order signals are delivered, the counter is the number of
      sessions announced and not yet released, but for the signals on their way; and the
      server is there exactly as long as it is positive. */
  lemma RefcountIsSessions(own: nat, events: seq<Event>)
    ensures var g := Run(own, events);
            && g.refcount + Net(g.pending) == |g.sessions|
            && (g.running <==> g.refcount > 0)
            && (g.pending == [] ==> g.refcount == |g.sessions|)
  {
    hide Run;
    RunCounting(own, events);
  }

  /** The server leaves exactly at a release that finds the counter at one; and it leaves
      nobody behind exactly when there are as many announcements as releases on their way. */
  lemma LeavesAtLastRelease(own: nat, events: seq<Event>, at: nat)
    requires Run(own, events).running
    ensures var g := Run(own, events);
            var d := Next(g, Deliver(at));
            && (!d.running <==> at < |g.pending| && g.pending[at].Release? && g.refcount == 1)
            && (!d.running ==> (d.sessions == {} <==> Net(d.pending) == 0))
  {
    hide Run, Net;
    RunCounting(own, events);
    NextCounting(Run(own, events), Deliver(at));
    var d := Next(Run(own, events), Deliver(at));
    assert d.sessions == {} <==> |d.sessions| == 0;
  }

  // ---------------------------------------------------------------- delivery in the order sent

  ghost predicate InOrder(events: seq<Event>) {
    forall i :: 0 <= i < |events| && events[i].Deliver? ==> events[i].at == 0
  }

  /** The sessions after the signals on their way, each of which adds a new session or
      releases one that is there. */
  ghost predicate Leads(from: set<nat>, signals: seq<Signal>, to: set<nat>)
    decreases |signals|
  {
    if signals == [] then from == to
    else
      match signals[0]
      case AddRef(s) => s !in from && Leads(from + {s}, signals[1..], to)
      case Release(s) => s in from && Leads(from - {s}, signals[1..], to)
  }

  ghost predicate Ordered(g: Group) {
    && g.refcount == |g.counted| && (g.running <==> g.counted != {})
    && Leads(g.counted, g.pending, g.sessions)
    && g.sessions <= g.used
  }

  lemma {:induction false} LeadsMore(from: set<nat>, signals: seq<Signal>, to: set<nat>, last: Signal)
    requires Leads(from, signals, to)
    requires if last.AddRef? then last.session !in to else last.session in to
    ensures Leads(from, signals + [last], if last.AddRef? then to + {last.session} else to - {last.session})
    decreases |signals|
  {
    var all := signals + [last];
    var end := if last.AddRef? then to + {last.session} else to - {last.session};
    if signals == [] {
      assert all == [last] && Leads(end, all[1..], end);
    } else {
      assert all[0] == signals[0] && all[1..] == signals[1..] + [last];
      match signals[0]
      case AddRef(s) => LeadsMore(from + {s}, signals[1..], to, last);
      case Release(s) => LeadsMore(from - {s}, signals[1..], to, last);
    }
  }

  lemma NextOrdered(g: Group, e: Event)
    requires Ordered(g) && (e.Deliver? ==> e.at == 0)
    ensures Ordered(Next(g, e))
  {
    match e
    case Join(s) =>
      if g.running && s !in g.used {
        LeadsMore(g.counted, g.pending, g.sessions, AddRef(s));
      }
    case Leave(s) =>
      if s in g.sessions {
        LeadsMore(g.counted, g.pending, g.sessions, Release(s));
      }
    case Deliver(_) =>
      if g.pending != [] {
        assert g.pending[..0] + g.pending[1..] == g.pending[1..];
      }
  }

  lemma {:induction false} RunOrdered(own: nat, events: seq<Event>)
    requires InOrder(events)
    ensures Ordered(Run(own, events))
  {
    hide Ordered, Next;
    if events == [] {
      ServeOrdered(own);
    } else {
      var front := events[..|events| - 1];
      assert forall i :: 0 <= i < |front| ==> front[i] == events[i];
      RunOrdered(own, front);
      NextOrdered(Run(own, front), events[|events| - 1]);
    }
  }

  lemma ServeOrdered(own: nat)
    ensures Ordered(Serve(own))
  {
    assert |{own}| == 1;
  }

  /** No release of the session follows in the signals from `i` on. */
  ghost predicate Held(signals: seq<Signal>, i: nat, s: nat) {
    forall j :: i <= j < |signals| ==> signals[j] != Release(s)
  }

  /** A session is there in the end if it was at first, or some signal added it, and no
      later one released it. */
  lemma {:induction false} LeadsTo(from: set<nat>, signals: seq<Signal>, to: set<nat>, s: nat)
    requires Leads(from, signals, to)
    ensures s in to <==>
      (s in from && Held(signals, 0, s)) || exists i :: 0 <= i < |signals| && signals[i] == AddRef(s) && Held(signals, i, s)
    decreases |signals|
  {
    if signals != [] {
      var others := signals[1..];
      var next := match signals[0] case AddRef(x) => from + {x} case Release(x) => from - {x};
      LeadsTo(next, others, to, s);
      HeldLater(signals, s);
      forall i | 0 <= i < |others|
        ensures others[i] == AddRef(s) && Held(others, i, s) <==> signals[i + 1] == AddRef(s) && Held(signals, i + 1, s)
      {
        HeldLaterAt(signals, i, s);
      }
      assert forall i :: 0 < i < |signals| ==> signals[i] == others[i - 1];
      if i :| 0 <= i < |signals| && signals[i] == AddRef(s) && Held(signals, i, s) {
        if i > 0 {
          assert others[i - 1] == AddRef(s) && Held(others, i - 1, s);
        }
      }
    }
  }

  lemma HeldLater(signals: seq<Signal>, s: nat)
    requires signals != []
    ensures Held(signals, 0, s) <==> signals[0] != Release(s) && Held(signals[1..], 0, s)
  {
    HeldLaterAt(signals, 0, s);
  }

  lemma HeldLaterAt(signals: seq<Signal>, i: nat, s: nat)
    requires signals != [] && i <= |signals| - 1
    ensures Held(signals[1..], i, s) <==> Held(signals, i + 1, s)
  {
    assert forall j :: 0 <= j < |signals| - 1 ==> signals[1..][j] == signals[j + 1];
    if Held(signals[1..], i, s) {
      forall j | i + 1 <= j < |signals| ensures signals[j] != Release(s) {
        assert signals[1..][j - 1] == signals[j];
      }
    }
  }

  /** Every announcement on its way is followed by the release of its session. */
  ghost predicate AllReleased(signals: seq<Signal>) {
    forall i :: 0 <= i < |signals| && signals[i].AddRef? ==>
      exists j :: i < j < |signals| && signals[j] == Release(signals[i].session)
  }

  lemma NobodyLeft(signals: seq<Signal>, to: set<nat>)
    requires Leads({}, signals, to)
    ensures to == {} <==> AllReleased(signals)
  {
    if to == {} {
      forall i | 0 <= i < |signals| && signals[i].AddRef?
        ensures exists j :: i < j < |signals| && signals[j] == Release(signals[i].session)
      {
        LeadsTo({}, signals, to, signals[i].session);
        assert !Held(signals, i, signals[i].session);
      }
    } else {
      var s :| s in to;
      LeadsTo({}, signals, to, s);
      var i :| 0 <= i < |signals| && signals[i] == AddRef(s) && Held(signals, i, s);
      assert !AllReleased(signals);
    }
  }

  /** When signals are delivered in the order sent: the server leaves exactly at the release
      of the last session it counts, and it leaves nobody behind exactly when every helper
      that has announced itself since has also released its session. */
  lemma LeavesInOrder(own: nat, events: seq<Event>)
    requires InOrder(events) && Run(own, events).running
    ensures var g := Run(own, events);
            var d := Next(g, Deliver(0));
            && g.refcount == |g.counted| && (g.pending == [] ==> g.counted == g.sessions)
            && (!d.running <==> g.pending != [] && g.pending[0].Release? && g.counted == {g.pending[0].session})
            && (!d.running ==> (d.sessions == {} <==> AllReleased(d.pending)))
  {
    hide Run, AllReleased;
    RunOrdered(own, events);
    var g := Run(own, events);
    NextOrdered(g, Deliver(0));
    var d := Next(g, Deliver(0));
    if g.pending != [] && g.pending[0].Release? {
      OneLess(g.counted, g.pending[0].session);
    }
    if !d.running {
      NobodyLeft(d.pending, d.sessions);
    }
  }

  lemma OneLess(s: set<nat>, x: nat)
    requires x in s
    ensures |s - {x}| == |s| - 1
    ensures s - {x} == {} <==> s == {x}
  {
  }

  // ---------------------------------------------------------------- left behind

  /** A helper that announces itself while the last release is on its way is left behind. */
  lemma LateJoinExample()
    ensures var g := Run(0, [Leave(0), Join(1), Deliver(0)]);
            !g.running && g.sessions == {1}
  {
    ThreeEvents(Leave(0), Join(1), Deliver(0));
  }

  /** So is one whose announcement is overtaken by the release of the session before it. */
  lemma OvertakenExample()
    ensures var g := Run(0, [Join(1), Leave(0), Deliver(1)]);
            !g.running && g.sessions == {1}
  {
    ThreeEvents(Join(1), Leave(0), Deliver(1));
  }

  lemma ThreeEvents(a: Event, b: Event, c: Event)
    ensures Run(0, [a, b, c]) == Next(Next(Next(Serve(0), a), b), c)
  {
    hide Next, Serve;
    var e := [a, b, c];
    assert e[..2] == [a, b] && [a, b][..1] == [a] && [a][..0] == [];
    assert Run(0, []) == Serve(0);
    assert Run(0, [a]) == Next(Run(0, []), a);
    assert Run(0, [a, b]) == Next(Run(0, [a]), b);
  }

  // ---------------------------------------------------------------- the handlers

  class Server {
    var refcount: int
    var running: bool

    constructor ()
      ensures refcount == 1 && running
    {
      refcount, running := 1, true;
    }

    ghost predicate Shows(g: Group)
      reads this
    {
      refcount == g.refcount && running == g.running
    }

    method AddRefHandler(ghost g: Group, ghost session: nat)
      requires Shows(g) && running
      modifies this
      ensures Shows(Handle(g, AddRef(session)))
    {
      refcount := refcount + 1;
    }

    method ReleaseHandler(ghost g: Group, ghost session: nat)
      requires Shows(g) && running
      modifies this
      ensures Shows(Handle(g, Release(session)))
    {
      refcount := refcount - 1;
      var v := refcount;
      if v == 0 {
        running := false;
      }
    }
  }
}
