/** The browser's end of the journal: sequence-number dedup, gap detection and catch-up. */
module Client {
  import opened Wrappers
  import opened Journal

  /** A message on the socket; snapshots of an empty journal and events the journal refused carry no number. */
  datatype Message = Message(num: Option<nat>, event: Event)

  /** How a catch-up fetch ends: with rows or with a failure; and whether the socket was closed while it ran. */
  datatype Fetch = Fetch(reply: Option<seq<EventRow>>, closes: bool)

  /** The client's bookkeeping: `applied` lists every event handed to the listeners. */
  datatype View = View(closed: bool, lastSeq: Option<nat>, applied: seq<Message>)

  /** The catch-up endpoint's cap. */
  const CATCHUP_LIMIT: nat := 1000

  predicate Fresh(lastSeq: Option<nat>, n: nat) {
    lastSeq == None || n > lastSeq.value
  }

  // ---- Specification ----

  /** Hands an event to the listeners, one of which may close the socket on it. */
  function Dispatch(v: View, m: Message, closesOn: Message -> bool): View {
    View(v.closed || closesOn(m), if m.num.Some? then m.num else v.lastSeq, v.applied + [m])
  }

  /** Applies the fetched rows in order, skipping what is not new, until the socket closes. */
  function CatchUp(v: View, rows: seq<EventRow>, closesOn: Message -> bool): View {
    if rows == [] then v
    else
      var u := CatchUp(v, rows[..|rows| - 1], closesOn);
      var row := rows[|rows| - 1];
      if u.closed || !Fresh(u.lastSeq, row.num) then u else Dispatch(u, Message(Some(row.num), row.event), closesOn)
  }

  /** One message, with the outcome of the fetch in case it shows a gap. */
  function Process(v: View, m: Message, fetch: Fetch, closesOn: Message -> bool): View {
    if v.closed then v
    else if m.num.Some? && !Fresh(v.lastSeq, m.num.value) then v
    else if m.num.Some? && v.lastSeq.Some? && m.num.value > v.lastSeq.value + 1 then
      var w := v.(closed := fetch.closes);
      var u := if fetch.reply.Some? then CatchUp(w, fetch.reply.value, closesOn) else w;
      if u.closed || !Fresh(u.lastSeq, m.num.value) then u else Dispatch(u, m, closesOn)
    else Dispatch(v, m, closesOn)
  }

  function Listen(v: View, inputs: seq<(Message, Fetch)>, closesOn: Message -> bool): View {
    if inputs == [] then v
    else
      var (m, fetch) := inputs[|inputs| - 1];
      Process(Listen(v, inputs[..|inputs| - 1], closesOn), m, fetch, closesOn)
  }

  /** A message without a number, such as the first snapshot of a new game, always reaches the listeners of an open socket,
      without a fetch, and leaves the count alone. */
  lemma UnnumberedReaches(v: View, m: Message, fetch: Fetch, closesOn: Message -> bool)
    requires !v.closed && m.num == None
    ensures Process(v, m, fetch, closesOn) == View(closesOn(m), v.lastSeq, v.applied + [m])
  {
  }

  // ---- The client object ----

  class GameSocket {
    var closed: bool
    var lastSeq: Option<nat>
    var applied: seq<Message>
    const closesOn: Message -> bool

    constructor (closesOn: Message -> bool)
      ensures this.closesOn == closesOn && Now() == View(false, None, [])
    {
      this.closesOn := closesOn;
      closed, lastSeq, applied := false, None, [];
    }

    function Now(): View
      reads this
    {
      View(closed, lastSeq, applied)
    }

    method ApplyEvent(m: Message)
      modifies this
      ensures closed == (old(closed) || closesOn(m)) && lastSeq == old(lastSeq) && applied == old(applied) + [m]
    {
      applied := applied + [m];
      closed := closed || closesOn(m);
    }

    method ProcessEvent(m: Message, fetch: Fetch)
      modifies this
      ensures Now() == Process(old(Now()), m, fetch, closesOn)
    {
      if closed {
        return;
      }
      if m.num.Some? && lastSeq.Some? && m.num.value <= lastSeq.value {
        return;
      }
      if m.num.Some? && lastSeq.Some? && m.num.value > lastSeq.value + 1 {
        FetchCatchup(fetch);
        if closed {
          return;
        }
        if lastSeq.Some? && m.num.value <= lastSeq.value {
          return;
        }
      }
      ApplyEvent(m);
      if m.num.Some? {
        lastSeq := m.num;
      }
    }

    method FetchCatchup(fetch: Fetch)
      modifies this
      ensures Now() ==
        if old(lastSeq) == None then old(Now())
        else if fetch.reply.Some? then CatchUp(old(Now()).(closed := old(closed) || fetch.closes), fetch.reply.value, closesOn)
        else old(Now()).(closed := old(closed) || fetch.closes)
    {
      if lastSeq == None {
        return;
      }
      closed := closed || fetch.closes;
      if fetch.reply == None {
        return;
      }
      ghost var start := Now();
      var rows := fetch.reply.value;
      var i := 0;
      while i < |rows|
        invariant i <= |rows|
        invariant Now() == CatchUp(start, rows[..i], closesOn)
        modifies this
      {
        assert rows[..i + 1][..i] == rows[..i];
        if closed {
          ClosedStaysPut(start, rows, i, closesOn);
          return;
        }
        var row := rows[i];
        if lastSeq == None || row.num > lastSeq.value {
          ApplyEvent(Message(Some(row.num), row.event));
          lastSeq := Some(row.num);
        }
        i := i + 1;
      }
      assert rows[..|rows|] == rows;
    }
  }

  lemma {:induction false} ClosedStaysPut(v: View, rows: seq<EventRow>, i: nat, closesOn: Message -> bool)
    requires i <= |rows| && CatchUp(v, rows[..i], closesOn).closed
    ensures CatchUp(v, rows, closesOn) == CatchUp(v, rows[..i], closesOn)
  {
    if i < |rows| {
      assert rows[..|rows| - 1][..i] == rows[..i];
      ClosedStaysPut(v, rows[..|rows| - 1], i, closesOn);
    } else {
      assert rows[..i] == rows;
    }
  }

  // ---- At most once, in order, whatever arrives ----

  /** The numbered events applied, in order. */
  function Numbered(applied: seq<Message>): seq<EventRow> {
    if applied == [] then []
    else
      var m := applied[|applied| - 1];
      Numbered(applied[..|applied| - 1]) + if m.num.Some? then [EventRow(m.num.value, m.event)] else []
  }

  /** Numbers strictly increase, up to lastSeq. */
  ghost predicate AscendingTo(rows: seq<EventRow>, lastSeq: Option<nat>) {
    && (forall i, j | 0 <= i < j < |rows| :: rows[i].num < rows[j].num)
    && (forall i | 0 <= i < |rows| :: lastSeq.Some? && rows[i].num <= lastSeq.value)
  }

  ghost predicate Ascending(v: View) {
    AscendingTo(Numbered(v.applied), v.lastSeq)
  }

  lemma DispatchNumbered(v: View, m: Message, closesOn: Message -> bool)
    ensures Numbered(Dispatch(v, m, closesOn).applied)
            == Numbered(v.applied) + if m.num.Some? then [EventRow(m.num.value, m.event)] else []
  {
    assert (v.applied + [m])[..|v.applied|] == v.applied;
  }

  lemma DispatchAscending(v: View, m: Message, closesOn: Message -> bool)
    requires Ascending(v) && (m.num.Some? ==> Fresh(v.lastSeq, m.num.value))
    ensures Ascending(Dispatch(v, m, closesOn))
  {
    DispatchNumbered(v, m, closesOn);
    hide Numbered;
    assert Numbered(v.applied) + [] == Numbered(v.applied);
  }

  lemma {:induction false} CatchUpAscending(v: View, rows: seq<EventRow>, closesOn: Message -> bool)
    requires Ascending(v)
    ensures Ascending(CatchUp(v, rows, closesOn))
  {
    hide Ascending, Dispatch;
    if rows != [] {
      CatchUpAscending(v, rows[..|rows| - 1], closesOn);
      var u := CatchUp(v, rows[..|rows| - 1], closesOn);
      var row := rows[|rows| - 1];
      if Fresh(u.lastSeq, row.num) {
        DispatchAscending(u, Message(Some(row.num), row.event), closesOn);
      }
    }
  }

  lemma CloseAscending(v: View, closed: bool)
    requires Ascending(v)
    ensures Ascending(v.(closed := closed))
  {
  }

  lemma ProcessAscending(v: View, m: Message, fetch: Fetch, closesOn: Message -> bool)
    requires Ascending(v)
    ensures Ascending(Process(v, m, fetch, closesOn))
  {
    hide Ascending, Dispatch, CatchUp;
    var w := v.(closed := fetch.closes);
    CloseAscending(v, fetch.closes);
    if fetch.reply.Some? {
      CatchUpAscending(w, fetch.reply.value, closesOn);
    }
    forall u | Ascending(u) && (m.num.Some? ==> Fresh(u.lastSeq, m.num.value))
      ensures Ascending(Dispatch(u, m, closesOn))
    {
      DispatchAscending(u, m, closesOn);
    }
  }

  /** Under any messages, lost, repeated or out of order, and any fetch replies, good or bad, the client applies
      numbered events in strictly increasing order, each at most once. */
  lemma {:induction false} AtMostOnceLaw(v: View, inputs: seq<(Message, Fetch)>, closesOn: Message -> bool)
    requires Ascending(v)
    ensures Ascending(Listen(v, inputs, closesOn))
  {
    hide Ascending, Process;
    if inputs != [] {
      AtMostOnceLaw(v, inputs[..|inputs| - 1], closesOn);
      var (m, fetch) := inputs[|inputs| - 1];
      ProcessAscending(Listen(v, inputs[..|inputs| - 1], closesOn), m, fetch, closesOn);
    }
  }

  // ---- Nothing missing, when fetches succeed ----

  /** From v on, u applied exactly the journal's rows between the two positions. */
  predicate Gapless(v: View, u: View, events: seq<Event>) {
    && v.lastSeq.Some? && u.lastSeq.Some?
    && v.lastSeq.value <= u.lastSeq.value <= |events|
    && Numbered(u.applied) == Numbered(v.applied) + Slice(events, v.lastSeq.value, u.lastSeq.value)
  }

  lemma SliceGrows(events: seq<Event>, lo: nat, hi: nat)
    requires lo <= hi < |events|
    ensures Slice(events, lo, hi + 1) == Slice(events, lo, hi) + [EventRow(hi + 1, events[hi])]
  {
  }

  lemma GaplessSteps(v: View, u: View, w: View, events: seq<Event>)
    requires Gapless(v, u, events) && Gapless(u, w, events)
    ensures Gapless(v, w, events)
  {
    hide Numbered;
    var a, b, c := v.lastSeq.value, u.lastSeq.value, w.lastSeq.value;
    assert Slice(events, a, c) == Slice(events, a, b) + Slice(events, b, c);
  }

  /** The next row of the journal, applied. */
  lemma NextRowGapless(v: View, u: View, event: Event, events: seq<Event>, closesOn: Message -> bool)
    requires Gapless(v, u, events) && u.lastSeq.value < |events| && event == events[u.lastSeq.value]
    ensures Gapless(v, Dispatch(u, Message(Some(u.lastSeq.value + 1), event), closesOn), events)
  {
    DispatchNumbered(u, Message(Some(u.lastSeq.value + 1), event), closesOn);
    hide Numbered;
    SliceGrows(events, v.lastSeq.value, u.lastSeq.value);
  }

  /** Rows lo + 1 to hi, applied to a client that stands at lo. */
  lemma {:induction false} CatchUpGapless(v: View, hi: nat, events: seq<Event>, closesOn: Message -> bool)
    requires v.lastSeq.Some? && v.lastSeq.value <= hi <= |events|
    ensures var u := CatchUp(v, Slice(events, v.lastSeq.value, hi), closesOn);
      Gapless(v, u, events) && u.lastSeq.value <= hi && (!u.closed ==> u.lastSeq == Some(hi))
    decreases hi
  {
    var lo := v.lastSeq.value;
    var rows := Slice(events, lo, hi);
    if hi == lo {
      assert Numbered(v.applied) + Slice(events, lo, lo) == Numbered(v.applied);
    } else {
      var h: nat := hi - 1;
      CatchUpGapless(v, h, events, closesOn);
      SliceGrows(events, lo, h);
      assert rows[..|rows| - 1] == Slice(events, lo, h);
      var u := CatchUp(v, Slice(events, lo, h), closesOn);
      if !u.closed {
        NextRowGapless(v, u, events[h], events, closesOn);
      }
    }
  }

  /** The message is a row of the journal, and a fetch, if any, was answered from the journal as it then stood, which
      already held the message's row. */
  predicate Served(v: View, m: Message, fetch: Fetch, events: seq<Event>, known: nat) {
    && known <= |events|
    && (m.num.Some? ==> 1 <= m.num.value <= known && m.event == events[m.num.value - 1])
    && (fetch.reply.Some? && v.lastSeq.Some? && v.lastSeq.value <= known ==>
          fetch.reply.value == Slice(events, v.lastSeq.value, Min(known, v.lastSeq.value + CATCHUP_LIMIT)))
  }

  /** Whether processing m triggers a fetch. */
  predicate ShowsGap(v: View, m: Message) {
    !v.closed && m.num.Some? && v.lastSeq.Some? && m.num.value > v.lastSeq.value + 1
  }

  /** A listener closes the socket on one of these rows. */
  predicate SomeCloses(rows: seq<EventRow>, closesOn: Message -> bool) {
    exists i :: 0 <= i < |rows| && closesOn(Message(Some(rows[i].num), rows[i].event))
  }

  /** The exact condition under which a message is processed without a hole: it shows none, or the socket closes while
      the fetch runs, or the fetch succeeds and either the message is at most one row beyond the fetch's cap or a
      listener closes the socket on a fetched row. */
  lemma GaplessIff(v: View, m: Message, fetch: Fetch, events: seq<Event>, known: nat, closesOn: Message -> bool)
    requires v.lastSeq.Some? && v.lastSeq.value <= |events| && Served(v, m, fetch, events, known)
    ensures Gapless(v, Process(v, m, fetch, closesOn), events)
      <==> (ShowsGap(v, m) ==> FetchCovers(v, m, fetch, closesOn))
  {
    var lo := v.lastSeq.value;
    assert Slice(events, lo, lo) == [];
    assert Gapless(v, v, events);
    if m.num.None? {
      DispatchNumbered(v, m, closesOn);
    } else if ShowsGap(v, m) {
      GapCase(v, m, fetch, events, known, closesOn);
    } else if !v.closed && m.num.value == lo + 1 {
      NextRowGapless(v, v, m.event, events, closesOn);
    }
  }

  predicate FetchCovers(v: View, m: Message, fetch: Fetch, closesOn: Message -> bool)
    requires m.num.Some? && v.lastSeq.Some?
  {
    fetch.closes
    || (fetch.reply.Some? && (m.num.value <= v.lastSeq.value + CATCHUP_LIMIT + 1 || SomeCloses(fetch.reply.value, closesOn)))
  }

  lemma HoleShows(v: View, u: View, m: Message, events: seq<Event>, closesOn: Message -> bool)
    requires Gapless(v, u, events) && m.num.Some? && u.lastSeq.value + 1 < m.num.value
    ensures !Gapless(v, Dispatch(u, m, closesOn), events)
  {
    DispatchNumbered(u, m, closesOn);
    hide Numbered;
    var w := Dispatch(u, m, closesOn);
    assert |Numbered(w.applied)| == |Numbered(v.applied)| + u.lastSeq.value - v.lastSeq.value + 1;
  }

  lemma SomeClosesGrows(rows: seq<EventRow>, last: EventRow, closesOn: Message -> bool)
    ensures SomeCloses(rows + [last], closesOn) <==> SomeCloses(rows, closesOn) || closesOn(Message(Some(last.num), last.event))
  {
    var more := rows + [last];
    assert more[|rows|] == last && forall i | 0 <= i < |rows| :: more[i] == rows[i];
  }

  /** Catching up on a slice ends closed exactly when it began closed or a listener closes the socket on one of its rows. */
  lemma {:induction false} CatchUpCloses(v: View, hi: nat, events: seq<Event>, closesOn: Message -> bool)
    requires v.lastSeq.Some? && v.lastSeq.value <= hi <= |events|
    ensures var rows := Slice(events, v.lastSeq.value, hi);
      CatchUp(v, rows, closesOn).closed <==> v.closed || SomeCloses(rows, closesOn)
    decreases hi
  {
    var lo := v.lastSeq.value;
    if hi > lo {
      var h: nat := hi - 1;
      CatchUpCloses(v, h, events, closesOn);
      CatchUpGapless(v, h, events, closesOn);
      SliceGrows(events, lo, h);
      var rows := Slice(events, lo, hi);
      assert rows[..|rows| - 1] == Slice(events, lo, h);
      hide SomeCloses, Slice, Gapless;
      SomeClosesGrows(Slice(events, lo, h), EventRow(hi, events[h]), closesOn);
    }
  }

  lemma {:induction false} ClosedKeeps(v: View, rows: seq<EventRow>, closesOn: Message -> bool)
    requires v.closed
    ensures CatchUp(v, rows, closesOn) == v
  {
    if rows != [] {
      ClosedKeeps(v, rows[..|rows| - 1], closesOn);
    }
  }

  lemma GapCase(v: View, m: Message, fetch: Fetch, events: seq<Event>, known: nat, closesOn: Message -> bool)
    requires v.lastSeq.Some? && v.lastSeq.value <= |events| && Served(v, m, fetch, events, known) && ShowsGap(v, m)
    ensures Gapless(v, Process(v, m, fetch, closesOn), events) <==> FetchCovers(v, m, fetch, closesOn)
  {
    hide Numbered, CatchUp, SomeCloses;
    var lo := v.lastSeq.value;
    var w := v.(closed := fetch.closes);
    assert Slice(events, lo, lo) == [];
    assert Gapless(v, w, events);
    if fetch.reply.Some? {
      var hi := Min(known, lo + CATCHUP_LIMIT);
      CatchUpGapless(w, hi, events, closesOn);
      CatchUpCloses(w, hi, events, closesOn);
      var u := CatchUp(w, fetch.reply.value, closesOn);
      GaplessSteps(v, w, u, events);
      if !u.closed && m.num.value == u.lastSeq.value + 1 {
        NextRowGapless(v, u, m.event, events, closesOn);
      } else if !u.closed && m.num.value > u.lastSeq.value + 1 {
        HoleShows(v, u, m, events, closesOn);
      }
    } else if !fetch.closes {
      HoleShows(v, w, m, events, closesOn);
    }
  }

  /** Every message of the run is served from the journal, and every fetch it triggers covers the gap. */
  predicate WellServed(v: View, inputs: seq<(Message, Fetch)>, events: seq<Event>, known: seq<nat>, closesOn: Message -> bool)
    requires |known| == |inputs|
  {
    inputs == [] ||
    var n := |inputs| - 1;
    var u := Listen(v, inputs[..n], closesOn);
    var (m, fetch) := inputs[n];
    && WellServed(v, inputs[..n], events, known[..n], closesOn)
    && Served(u, m, fetch, events, known[n])
    && (ShowsGap(u, m) ==> FetchCovers(u, m, fetch, closesOn))
  }

  /** After the first numbered message, a client whose fetches all cover the gap has applied exactly a
      contiguous slice of the journal, in order, however live messages were lost, repeated or reordered. */
  lemma {:induction false} ExactlyOnceLaw(v: View, inputs: seq<(Message, Fetch)>, events: seq<Event>, known: seq<nat>,
                                          closesOn: Message -> bool)
    requires v.lastSeq.Some? && v.lastSeq.value <= |events|
    requires |known| == |inputs| && WellServed(v, inputs, events, known, closesOn)
    ensures Gapless(v, Listen(v, inputs, closesOn), events)
  {
    if inputs == [] {
      assert Slice(events, v.lastSeq.value, v.lastSeq.value) == [];
    } else {
      hide Gapless, Process;
      var n := |inputs| - 1;
      var u := Listen(v, inputs[..n], closesOn);
      var (m, fetch) := inputs[n];
      ExactlyOnceLaw(v, inputs[..n], events, known[..n], closesOn);
      GaplessGives(v, u, events);
      GaplessIff(u, m, fetch, events, known[n], closesOn);
      GaplessSteps(v, u, Process(u, m, fetch, closesOn), events);
    }
  }

  lemma GaplessGives(v: View, u: View, events: seq<Event>)
    requires Gapless(v, u, events)
    ensures u.lastSeq.Some? && u.lastSeq.value <= |events|
  {
  }

  /** A hole, once made, stays: what was skipped is never applied, whatever arrives or is fetched afterwards. */
  lemma HoleIsPermanent(v: View, inputs: seq<(Message, Fetch)>, closesOn: Message -> bool, n: nat)
    requires Ascending(v) && v.lastSeq.Some? && n <= v.lastSeq.value
    requires forall row | row in Numbered(v.applied) :: row.num != n
    ensures forall row | row in Numbered(Listen(v, inputs, closesOn).applied) :: row.num != n
  {
    OnlyNewer(v, inputs, closesOn);
  }

  /** The list of applied events only grows, by numbers above where it stood. */
  ghost predicate Extends(v: View, u: View) {
    && (v.lastSeq.Some? ==> u.lastSeq.Some? && v.lastSeq.value <= u.lastSeq.value)
    && (forall row | row in Numbered(u.applied) :: row in Numbered(v.applied) || Fresh(v.lastSeq, row.num))
  }

  lemma DispatchExtends(v: View, u: View, m: Message, closesOn: Message -> bool)
    requires Extends(v, u) && (m.num.Some? ==> Fresh(u.lastSeq, m.num.value))
    ensures Extends(v, Dispatch(u, m, closesOn))
  {
    DispatchNumbered(u, m, closesOn);
    hide Numbered;
  }

  lemma {:induction false} CatchUpExtends(v: View, w: View, rows: seq<EventRow>, closesOn: Message -> bool)
    requires Extends(v, w)
    ensures Extends(v, CatchUp(w, rows, closesOn))
  {
    hide Extends, Dispatch;
    if rows != [] {
      CatchUpExtends(v, w, rows[..|rows| - 1], closesOn);
      var u := CatchUp(w, rows[..|rows| - 1], closesOn);
      var row := rows[|rows| - 1];
      if Fresh(u.lastSeq, row.num) {
        DispatchExtends(v, u, Message(Some(row.num), row.event), closesOn);
      }
    }
  }

  lemma ProcessExtends(v: View, u: View, m: Message, fetch: Fetch, closesOn: Message -> bool)
    requires Extends(v, u)
    ensures Extends(v, Process(u, m, fetch, closesOn))
  {
    var w := u.(closed := fetch.closes);
    assert Extends(v, w);
    hide Extends, Dispatch, CatchUp;
    if fetch.reply.Some? {
      CatchUpExtends(v, w, fetch.reply.value, closesOn);
    }
    forall x | Extends(v, x) && (m.num.Some? ==> Fresh(x.lastSeq, m.num.value))
      ensures Extends(v, Dispatch(x, m, closesOn))
    {
      DispatchExtends(v, x, m, closesOn);
    }
  }

  lemma {:induction false} OnlyNewer(v: View, inputs: seq<(Message, Fetch)>, closesOn: Message -> bool)
    ensures Extends(v, Listen(v, inputs, closesOn))
  {
    if inputs != [] {
      hide Extends, Process;
      OnlyNewer(v, inputs[..|inputs| - 1], closesOn);
      var (m, fetch) := inputs[|inputs| - 1];
      ProcessExtends(v, Listen(v, inputs[..|inputs| - 1], closesOn), m, fetch, closesOn);
    }
  }

  // ---- First connections ----

  /** A client that has not applied a numbered event yet. */
  predicate Untouched(v: View) {
    v.lastSeq == None && Numbered(v.applied) == []
  }

  /** The first numbered message is compared with nothing: it leaves the client with the whole journal up to it exactly
      when it is event 1. */
  lemma FirstMessageIff(v: View, m: Message, fetch: Fetch, events: seq<Event>, known: nat, closesOn: Message -> bool)
    requires !v.closed && Untouched(v) && Served(v, m, fetch, events, known) && m.num.Some?
    ensures var u := Process(v, m, fetch, closesOn);
      && u.lastSeq == m.num && Numbered(u.applied) == Slice(events, m.num.value - 1, m.num.value)
      && (Numbered(u.applied) == Slice(events, 0, m.num.value) <==> m.num.value == 1)
  {
    DispatchNumbered(v, m, closesOn);
    assert |Slice(events, 0, m.num.value)| == m.num.value;
  }

  /** The number on the first numbered message. */
  function FirstNumber(inputs: seq<(Message, Fetch)>): Option<nat> {
    if inputs == [] then None
    else
      var earlier := FirstNumber(inputs[..|inputs| - 1]);
      if earlier.Some? then earlier else inputs[|inputs| - 1].0.num
  }

  /** The client has applied exactly the rows from number first on to where it stands. */
  predicate AppliedFrom(u: View, events: seq<Event>, first: nat) {
    && u.lastSeq.Some? && 1 <= first <= u.lastSeq.value <= |events|
    && Numbered(u.applied) == Slice(events, first - 1, u.lastSeq.value)
  }

  lemma AppliedOn(u: View, w: View, events: seq<Event>, first: nat)
    requires AppliedFrom(u, events, first) && Gapless(u, w, events)
    ensures AppliedFrom(w, events, first)
  {
    hide Numbered;
    var a, b, c := first - 1, u.lastSeq.value, w.lastSeq.value;
    assert Slice(events, a, c) == Slice(events, a, b) + Slice(events, b, c);
  }

  /** A well-served client has applied nothing numbered yet, or a slice that begins with the first numbered message. */
  lemma {:induction false} FirstConnection(v: View, inputs: seq<(Message, Fetch)>, events: seq<Event>, known: seq<nat>,
                                           closesOn: Message -> bool)
    requires !v.closed && Untouched(v) && |known| == |inputs| && WellServed(v, inputs, events, known, closesOn)
    ensures var u := Listen(v, inputs, closesOn);
      || (Untouched(u) && (u.closed || FirstNumber(inputs) == None))
      || (FirstNumber(inputs).Some? && AppliedFrom(u, events, FirstNumber(inputs).value))
  {
    if inputs != [] {
      var n := |inputs| - 1;
      var u := Listen(v, inputs[..n], closesOn);
      var (m, fetch) := inputs[n];
      FirstConnection(v, inputs[..n], events, known[..n], closesOn);
      hide AppliedFrom, Gapless, Numbered;
      if Untouched(u) {
        DispatchNumbered(u, m, closesOn);
        if !u.closed && m.num.Some? {
          FirstMessageIff(u, m, fetch, events, known[n], closesOn);
          AppliedOne(Process(u, m, fetch, closesOn), events);
        }
      } else {
        StandsInJournal(u, events, FirstNumber(inputs[..n]).value);
        GaplessIff(u, m, fetch, events, known[n], closesOn);
        AppliedOn(u, Process(u, m, fetch, closesOn), events, FirstNumber(inputs[..n]).value);
      }
    }
  }

  lemma AppliedOne(u: View, events: seq<Event>)
    requires u.lastSeq.Some? && 1 <= u.lastSeq.value <= |events|
    requires Numbered(u.applied) == Slice(events, u.lastSeq.value - 1, u.lastSeq.value)
    ensures AppliedFrom(u, events, u.lastSeq.value)
  {
  }

  lemma StandsInJournal(u: View, events: seq<Event>, first: nat)
    requires AppliedFrom(u, events, first)
    ensures u.lastSeq.Some? && u.lastSeq.value <= |events|
  {
  }

  /** A first connection, from a snapshot of the empty journal on: a client whose fetches all cover the gap has applied
      the whole journal up to where it stands if and only if it has applied nothing numbered or the first numbered
      message it was sent is event 1. */
  lemma FirstConnectionLaw(v: View, inputs: seq<(Message, Fetch)>, events: seq<Event>, known: seq<nat>, closesOn: Message -> bool)
    requires !v.closed && Untouched(v) && |known| == |inputs| && WellServed(v, inputs, events, known, closesOn)
    ensures var u := Listen(v, inputs, closesOn);
      && (u.lastSeq.Some? ==> u.lastSeq.value <= |events|)
      && (Numbered(u.applied) == (if u.lastSeq.Some? then Slice(events, 0, u.lastSeq.value) else [])
          <==> u.lastSeq == None || FirstNumber(inputs) == Some(1))
  {
    hide Listen, Numbered;
    FirstConnection(v, inputs, events, known, closesOn);
    var u := Listen(v, inputs, closesOn);
    if u.lastSeq.Some? {
      assert |Slice(events, 0, u.lastSeq.value)| == u.lastSeq.value;
    }
  }

  /** A first connection to a game without events carries an unnumbered snapshot: event 1 can then be missed without
      a fetch, because the first numbered message is never compared with anything. */
  lemma EmptyJournalSnapshotHidesGap(snapshot: Event, second: Event, fetch: Fetch, closesOn: Message -> bool)
    requires forall x :: !closesOn(x)
    ensures var v := Process(View(false, None, []), Message(None, snapshot), fetch, closesOn);
      var u := Process(v, Message(Some(2), second), fetch, closesOn);
      && u.lastSeq == Some(2) && Numbered(u.applied) == [EventRow(2, second)]
  {
    var v := Process(View(false, None, []), Message(None, snapshot), fetch, closesOn);
    DispatchNumbered(View(false, None, []), Message(None, snapshot), closesOn);
    DispatchNumbered(v, Message(Some(2), second), closesOn);
  }
}
