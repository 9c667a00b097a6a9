/** The bounded job-event log of productexperience/service_jobs.go and the polling client of server.go. */
module JobEvents {
  import opened Text

  const CAP: nat := 1000

  datatype Event = Event(id: string, payload: string)

  function ZeroPad(s: string, width: nat): (t: string) {
    if |s| >= width then s else seq(width - |s|, i => '0') + s
  }

  /** evt-%06d */
  function EventId(n: nat): string {
    "evt-" + ZeroPad(Decimal(n), 6)
  }

  lemma {:induction false} LeadingZeros(k: nat, s: string)
    requires forall i :: 0 <= i < |s| ==> IsDigit(s[i])
    ensures var t := seq(k, i => '0') + s;
            (forall i :: 0 <= i < |t| ==> IsDigit(t[i])) && DecimalValue(t) == DecimalValue(s)
    decreases k + |s|
  {
    var z := seq(k, i => '0');
    var t := z + s;
    if s != "" {
      LeadingZeros(k, s[..|s| - 1]);
      assert t[..|t| - 1] == z + s[..|s| - 1];
    } else if k > 0 {
      LeadingZeros(k - 1, s);
      assert t[..|t| - 1] == seq(k - 1, i => '0') + s;
    }
  }

  lemma PaddedValue(n: nat)
    ensures var t := ZeroPad(Decimal(n), 6); (forall i :: 0 <= i < |t| ==> IsDigit(t[i])) && DecimalValue(t) == n
  {
    var s := Decimal(n);
    DecimalRoundTrip(n);
    if |s| < 6 {
      LeadingZeros(6 - |s|, s);
    }
  }

  lemma EventIdInjective(m: nat, n: nat)
    requires EventId(m) == EventId(n)
    ensures m == n
  {
    SplitAtLength("evt-", ZeroPad(Decimal(m), 6), "evt-", ZeroPad(Decimal(n), 6));
    PaddedValue(m);
    PaddedValue(n);
  }

  // ----- the log

  /** The number of the last event, and the events still held. */
  datatype Log = Log(seqNo: nat, events: seq<Event>)

  /** The log holds the last events, at most CAP of them, with consecutive numbers. */
  predicate Valid(l: Log) {
    |l.events| == (if l.seqNo < CAP then l.seqNo else CAP) && Labelled(l.events, Evicted(l))
  }

  /** Event i carries the id of number base + 1 + i. */
  predicate Labelled(events: seq<Event>, base: nat) {
    forall i :: 0 <= i < |events| ==> LabelAt(events, base, i)
  }

  predicate LabelAt(events: seq<Event>, base: nat, i: nat)
    requires i < |events|
  {
    HasNumber(events[i], base + 1 + i)
  }

  predicate HasNumber(e: Event, n: nat) {
    e.id == EventId(n)
  }

  /** Events up to this number are gone. */
  function Evicted(l: Log): nat {
    if |l.events| <= l.seqNo then l.seqNo - |l.events| else 0
  }

  function Appended(l: Log, payload: string): Log {
    var events := l.events + [Event(EventId(l.seqNo + 1), payload)];
    Log(l.seqNo + 1, if |events| > CAP then events[|events| - CAP..] else events)
  }

  lemma AppendedValid(l: Log, payload: string)
    requires Valid(l)
    ensures Valid(Appended(l, payload)) && Evicted(Appended(l, payload)) >= Evicted(l)
  {
    var e := Event(EventId(l.seqNo + 1), payload);
    var events := l.events + [e];
    LabelledAppend(l.events, Evicted(l), e);
    if |events| > CAP {
      LabelledDrop(events, Evicted(l));
      assert Appended(l, payload) == Log(l.seqNo + 1, events[1..]);
    } else {
      assert Appended(l, payload) == Log(l.seqNo + 1, events);
    }
  }

  lemma LabelledAppend(events: seq<Event>, base: nat, e: Event)
    requires Labelled(events, base) && HasNumber(e, base + 1 + |events|)
    ensures Labelled(events + [e], base)
  {
    forall i | 0 <= i < |events| ensures LabelAt(events + [e], base, i) {
      assert LabelAt(events, base, i);
    }
  }

  lemma LabelledDrop(events: seq<Event>, base: nat)
    requires Labelled(events, base) && events != []
    ensures Labelled(events[1..], base + 1)
  {
    var kept, next := events[1..], base + 1;
    forall i | 0 <= i < |kept| ensures LabelAt(kept, next, i) {
      assert LabelAt(events, base, i + 1);
    }
  }

  function PositionAfter(events: seq<Event>, last: string): (i: nat)
    ensures i <= |events|
    ensures i > 0 ==> events[i - 1].id == last
    ensures i == 0 ==> forall j :: 0 <= j < |events| ==> events[j].id != last
  {
    if events == [] then 0
    else if events[0].id == last then 1
    else
      var i := PositionAfter(events[1..], last);
      assert forall j :: 1 <= j < |events| ==> events[j] == events[1..][j - 1];
      if i == 0 then 0 else i + 1
  }

  lemma {:induction false} PositionIsFirst(events: seq<Event>, last: string, j: nat)
    requires j + 1 < PositionAfter(events, last)
    ensures events[j].id != last
  {
    if j > 0 {
      PositionIsFirst(events[1..], last, j - 1);
    }
  }

  function Bounded(limit: int): (n: nat)
    ensures 1 <= n <= 500
  {
    if limit <= 0 || limit > 500 then 100 else limit
  }

  /** What JobEventsSince returns. */
  function Since(events: seq<Event>, last: string, limit: int): (r: seq<Event>) {
    var start := if last == "" then 0 else PositionAfter(events, last);
    var end := if start + Bounded(limit) > |events| then |events| else start + Bounded(limit);
    events[start..end]
  }

  /** Right after the first event with this id, or at the front when there is none. */
  predicate StartsAfter(events: seq<Event>, last: string, start: nat) {
    && start <= |events|
    && (start > 0 ==> last != "" && events[start - 1].id == last)
    && (forall j :: 0 <= j < start - 1 ==> events[j].id != last)
    && (start == 0 && last != "" ==> forall j :: 0 <= j < |events| ==> events[j].id != last)
  }

  /** How many of the events that are left one poll delivers: `limit` if it is 1 to 500, and otherwise 100. */
  function Allowed(limit: int, left: nat): (n: nat)
    ensures n <= left
  {
    var most := if 1 <= limit <= 500 then limit else 100;
    if most < left then most else left
  }

  /** The part of the service that keeps job events. */
  class JobService {
    var eventSeq: nat
    var jobEvents: seq<Event>

    constructor ()
      ensures Valid(Log(eventSeq, jobEvents)) && eventSeq == 0
    {
      eventSeq, jobEvents := 0, [];
    }

    /** appendJobEventLocked */
    method AppendJobEvent(payload: string) returns (event: Event)
      requires Valid(Log(eventSeq, jobEvents))
      modifies this
      ensures Log(eventSeq, jobEvents) == Appended(old(Log(eventSeq, jobEvents)), payload)
      ensures Valid(Log(eventSeq, jobEvents)) && jobEvents[|jobEvents| - 1] == event
    {
      AppendedValid(Log(eventSeq, jobEvents), payload);
      eventSeq := eventSeq + 1;
      event := Event(EventId(eventSeq), payload);
      jobEvents := jobEvents + [event];
      if |jobEvents| > CAP {
        jobEvents := jobEvents[|jobEvents| - CAP..];
      }
    }

    /** JobEventsSince: as many as allowed of the events after the cursor, or from the oldest when it is not held. */
    method JobEventsSince(last: string, limit: int) returns (r: seq<Event>)
      ensures r == Since(jobEvents, last, limit)
      ensures exists start: nat :: StartsAfter(jobEvents, last, start)
                && r == jobEvents[start..start + Allowed(limit, |jobEvents| - start)]
    {
      var limit' := limit;
      if limit' <= 0 || limit' > 500 {
        limit' := 100;
      }
      var start := 0;
      if last != "" {
        start := Find(last);
      }
      assert StartsAfter(jobEvents, last, start);
      if start >= |jobEvents| {
        return [];
      }
      var end := start + limit';
      if end > |jobEvents| {
        end := |jobEvents|;
      }
      r := jobEvents[start..end];
    }

    /** The scan for the cursor: the position after the first event with this id. */
    method Find(last: string) returns (start: nat)
      ensures start == PositionAfter(jobEvents, last)
      ensures last != "" ==> StartsAfter(jobEvents, last, start)
    {
      forall j: nat | j + 1 < PositionAfter(jobEvents, last) ensures jobEvents[j].id != last {
        PositionIsFirst(jobEvents, last, j);
      }
      for i := 0 to |jobEvents|
        invariant PositionAfter(jobEvents, last) == var p := PositionAfter(jobEvents[i..], last);
                  if p == 0 then 0 else p + i
      {
        assert jobEvents[i..][1..] == jobEvents[i + 1..];
        if jobEvents[i].id == last {
          return i + 1;
        }
      }
      return 0;
    }
  }

  // ----- a client that polls with the last id it received

  /** The events received so far, in order, and the cursor. */
  datatype Client = Client(received: seq<Event>, last: string)

  datatype Move = Append(payload: string) | Poll(limit: int)

  /** The log, all events that were ever appended, and a client. */
  datatype World = World(log: Log, history: seq<Event>, client: Client)

  const START: World := World(Log(0, []), [], Client([], ""))

  function Step(w: World, m: Move): World {
    match m
    case Append(payload) =>
      w.(log := Appended(w.log, payload), history := w.history + [Event(EventId(w.log.seqNo + 1), payload)])
    case Poll(limit) =>
      var events := Since(w.log.events, w.client.last, limit);
      if events == [] then w
      else w.(client := Client(w.client.received + events, events[|events| - 1].id))
  }

  /** The log holds the last of the events that were appended. */
  predicate Holds(log: Log, history: seq<Event>) {
    Valid(log) && |history| == log.seqNo && Labelled(history, 0) && log.events == history[Evicted(log)..]
  }

  predicate Increasing(ns: seq<nat>) {
    forall i, j :: 0 <= i < j < |ns| ==> ns[i] < ns[j]
  }

  function Last(ns: seq<nat>): nat {
    if ns == [] then 0 else ns[|ns| - 1]
  }

  /** `ns` are the numbers of the received events. */
  predicate Numbered(received: seq<Event>, ns: seq<nat>, history: seq<Event>) {
    |ns| == |received| && forall i :: 0 <= i < |ns| ==> 1 <= ns[i] <= |history| && received[i] == history[ns[i] - 1]
  }

  /** Of the numbers up to c, every one is in ns or evicted. */
  ghost predicate OnlyEvictedMissing(ns: seq<nat>, c: nat, evicted: nat) {
    forall n: nat :: 1 <= n <= c ==> Got(ns, n) || n <= evicted
  }

  ghost predicate Got(ns: seq<nat>, n: nat) {
    exists i :: 0 <= i < |ns| && ns[i] == n
  }

  /** What the client has seen: the appended events with the strictly increasing numbers `ns`, the cursor is the id
      of the last, and of the events up to it every one was received or is evicted. */
  ghost predicate SeenAs(w: World, ns: seq<nat>) {
    && Holds(w.log, w.history) && Numbered(w.client.received, ns, w.history) && Increasing(ns)
    && w.client.last == LastIdIn(w.client.received)
    && OnlyEvictedMissing(ns, Last(ns), Evicted(w.log))
  }

  function LastIdIn(events: seq<Event>): string {
    if events == [] then "" else events[|events| - 1].id
  }

  ghost predicate Seen(w: World) {
    exists ns :: SeenAs(w, ns)
  }

  function StartOf(w: World): nat {
    if w.client.last == "" then 0 else PositionAfter(w.log.events, w.client.last)
  }

  /** Where the cursor of event number c is found. */
  lemma CursorPosition(l: Log, c: nat)
    requires Valid(l) && 1 <= c <= l.seqNo
    ensures PositionAfter(l.events, EventId(c)) == if c > Evicted(l) then c - Evicted(l) else 0
  {
    var start := PositionAfter(l.events, EventId(c));
    if start > 0 {
      assert LabelAt(l.events, Evicted(l), start - 1);
      EventIdInjective(Evicted(l) + start, c);
    }
    if c > Evicted(l) {
      assert LabelAt(l.events, Evicted(l), c - Evicted(l) - 1);
    }
  }

  lemma LastInHistory(received: seq<Event>, ns: seq<nat>, history: seq<Event>)
    requires Numbered(received, ns, history) && ns != []
    ensures 1 <= Last(ns) <= |history| && received[|received| - 1] == history[Last(ns) - 1]
  {
  }

  /** The poll resumes right after the cursor, or at the oldest held event when the cursor is evicted. */
  lemma ResumesAfter(w: World, ns: seq<nat>)
    requires SeenAs(w, ns)
    ensures var c := Last(ns); Evicted(w.log) + StartOf(w) == if c >= Evicted(w.log) then c else Evicted(w.log)
  {
    if ns != [] {
      LastInHistory(w.client.received, ns, w.history);
      IdOf(w.history, Last(ns));
      CursorPosition(w.log, Last(ns));
      assert EventId(Last(ns))[0] == 'e';
    }
  }

  /** The next n numbers after `from`. */
  function Following(from: nat, n: nat): (ns: seq<nat>)
    ensures |ns| == n && forall i :: 0 <= i < n ==> ns[i] == from + 1 + i
  {
    seq(n, i => from + 1 + i)
  }

  lemma PollSeen(w: World, ns: seq<nat>, limit: int) returns (ns': seq<nat>)
    requires SeenAs(w, ns)
    ensures SeenAs(Step(w, Poll(limit)), ns')
  {
    var events := Since(w.log.events, w.client.last, limit);
    if events == [] {
      ns' := ns;
      assert Step(w, Poll(limit)) == w;
    } else {
      var from := DeliveredNumbers(w, ns, limit);
      ns' := ns + Following(from, |events|);
      Received(w, ns, events, from);
    }
  }

  lemma IdOf(history: seq<Event>, n: nat)
    requires Labelled(history, 0) && 1 <= n <= |history|
    ensures history[n - 1].id == EventId(n)
  {
    assert LabelAt(history, 0, n - 1);
  }

  lemma OwnIds(history: seq<Event>, m: nat, n: nat)
    requires Labelled(history, 0) && 1 <= m < n <= |history|
    ensures history[m - 1].id != history[n - 1].id
  {
    IdOf(history, m);
    IdOf(history, n);
    if history[m - 1].id == history[n - 1].id {
      EventIdInjective(m, n);
    }
  }

  /** The client after it received these events. */
  lemma Received(w: World, ns: seq<nat>, events: seq<Event>, from: nat)
    requires SeenAs(w, ns) && events != [] && from == if Last(ns) >= Evicted(w.log) then Last(ns) else Evicted(w.log)
    requires Numbered(events, Following(from, |events|), w.history)
    ensures SeenAs(w.(client := Client(w.client.received + events, events[|events| - 1].id)),
                   ns + Following(from, |events|))
  {
    var n := |events|;
    NumberedConcat(w.client.received, ns, events, Following(from, n), w.history);
    Extended(ns, Following(from, n), Evicted(w.log), from);
    assert LastIdIn(w.client.received + events) == events[n - 1].id;
  }

  lemma SinceSlice(w: World, limit: int)
    ensures var events := Since(w.log.events, w.client.last, limit);
            StartOf(w) + |events| <= |w.log.events| && events == w.log.events[StartOf(w)..StartOf(w) + |events|]
  {
  }

  /** The events delivered are the appended ones right after the last received, or after the evicted ones. */
  lemma DeliveredNumbers(w: World, ns: seq<nat>, limit: int) returns (from: nat)
    requires SeenAs(w, ns)
    ensures from == if Last(ns) >= Evicted(w.log) then Last(ns) else Evicted(w.log)
    ensures var events := Since(w.log.events, w.client.last, limit);
            Numbered(events, Following(from, |events|), w.history)
  {
    from := Evicted(w.log) + StartOf(w);
    ResumesAfter(w, ns);
    SinceNumbers(w, limit);
  }

  lemma SinceNumbers(w: World, limit: int)
    requires Holds(w.log, w.history)
    ensures var events := Since(w.log.events, w.client.last, limit);
            Numbered(events, Following(Evicted(w.log) + StartOf(w), |events|), w.history)
  {
    SinceSlice(w, limit);
    SliceNumbers(w, StartOf(w), |Since(w.log.events, w.client.last, limit)|);
  }

  lemma SliceNumbers(w: World, start: nat, n: nat)
    requires Holds(w.log, w.history) && start + n <= |w.log.events|
    ensures Numbered(w.log.events[start..start + n], Following(Evicted(w.log) + start, n), w.history)
  {
  }

  lemma NumberedConcat(a: seq<Event>, ns: seq<nat>, b: seq<Event>, ms: seq<nat>, history: seq<Event>)
    requires Numbered(a, ns, history) && Numbered(b, ms, history)
    ensures Numbered(a + b, ns + ms, history)
  {
  }

  /** Numbers continued from `from` after the last (or after everything evicted). */
  lemma Extended(ns: seq<nat>, ms: seq<nat>, evicted: nat, from: nat)
    requires ms != [] && from == (if Last(ns) >= evicted then Last(ns) else evicted)
    requires Increasing(ns) && OnlyEvictedMissing(ns, Last(ns), evicted)
    requires forall i :: 0 <= i < |ms| ==> ms[i] == from + 1 + i
    ensures Increasing(ns + ms) && Last(ns + ms) == from + |ms| && OnlyEvictedMissing(ns + ms, from + |ms|, evicted)
  {
    var all := ns + ms;
    forall n: nat | 1 <= n <= from + |ms| ensures Got(all, n) || n <= evicted {
      if n > from {
        assert ms[n - from - 1] == n;
        assert all[|ns| + (n - from - 1)] == n;
      } else if n <= Last(ns) {
        assert Got(ns, n) || n <= evicted;
        if Got(ns, n) {
          var i :| 0 <= i < |ns| && ns[i] == n;
          assert all[i] == n;
        }
      }
    }
  }

  lemma AppendHolds(w: World, payload: string)
    requires Holds(w.log, w.history)
    ensures Holds(Step(w, Append(payload)).log, Step(w, Append(payload)).history)
    ensures Evicted(Step(w, Append(payload)).log) >= Evicted(w.log)
  {
    AppendedValid(w.log, payload);
    var e := Event(EventId(w.log.seqNo + 1), payload);
    LabelledAppend(w.history, 0, e);
    SuffixAppend(w.history, Evicted(w.log), e);
  }

  lemma SuffixAppend(history: seq<Event>, k: nat, e: Event)
    requires k <= |history|
    ensures (history + [e])[k..] == history[k..] + [e] && (history + [e])[k + 1..] == (history[k..] + [e])[1..]
  {
  }

  lemma StepSeen(w: World, m: Move)
    requires Seen(w)
    ensures Seen(Step(w, m))
  {
    var ns :| SeenAs(w, ns);
    match m
    case Append(payload) =>
      AppendHolds(w, payload);
      assert SeenAs(Step(w, m), ns);
    case Poll(limit) =>
      var ns' := PollSeen(w, ns, limit);
  }

  function Run(moves: seq<Move>): World {
    if moves == [] then START else Step(Run(moves[..|moves| - 1]), moves[|moves| - 1])
  }

  /** In every interleaving of appends and polls of one process run, a client that polls with the last id it
      received gets appended events in strictly increasing order, and misses only events already evicted. */
  lemma {:induction false} ClientSeesAll(moves: seq<Move>)
    ensures Seen(Run(moves))
  {
    if moves == [] {
      assert SeenAs(START, []);
    } else {
      ClientSeesAll(moves[..|moves| - 1]);
      StepSeen(Run(moves[..|moves| - 1]), moves[|moves| - 1]);
    }
  }

  /** So no event is received twice, by its id. */
  lemma NoneTwice(moves: seq<Move>, i: nat, j: nat)
    requires i < j < |Run(moves).client.received|
    ensures Run(moves).client.received[i].id != Run(moves).client.received[j].id
  {
    ClientSeesAll(moves);
    var ns :| SeenAs(Run(moves), ns);
    ReceivedOnce(Run(moves), ns, i, j);
  }

  lemma ReceivedOnce(w: World, ns: seq<nat>, i: nat, j: nat)
    requires SeenAs(w, ns) && i < j < |w.client.received|
    ensures w.client.received[i].id != w.client.received[j].id
  {
    assert w.client.received[i] == w.history[ns[i] - 1] && w.client.received[j] == w.history[ns[j] - 1];
    assert ns[i] < ns[j];
    OwnIds(w.history, ns[i], ns[j]);
  }

  // ----- nothing is withheld

  /** The number after which a poll continues: the last received, or the last evicted if that is later. */
  function Resume(seqNo: nat, last: nat): nat {
    if last + 1000 < seqNo then seqNo - 1000 else last
  }

  lemma SeenBounds(w: World, ns: seq<nat>)
    requires SeenAs(w, ns)
    ensures Last(ns) <= |w.history|
    ensures Evicted(w.log) == (if |w.history| < 1000 then 0 else |w.history| - 1000)
    ensures |w.log.events| == |w.history| - Evicted(w.log)
  {
    if ns != [] {
      LastInHistory(w.client.received, ns, w.history);
    }
  }

  lemma SinceCount(w: World, limit: int)
    ensures |Since(w.log.events, w.client.last, limit)| == Allowed(limit, |w.log.events| - StartOf(w))
  {
  }

  lemma NumberedIsSlice(events: seq<Event>, from: nat, history: seq<Event>)
    requires from <= |history| && Numbered(events, Following(from, |events|), history)
    ensures from + |events| <= |history| && events == history[from..from + |events|]
  {
    var ns := Following(from, |events|);
    if events != [] {
      assert ns[|events| - 1] <= |history|;
    }
  }

  /** These are the events a poll may deliver after number `from`. */
  predicate Returns(events: seq<Event>, history: seq<Event>, limit: int, from: nat) {
    && from <= |history|
    && |events| == Allowed(limit, |history| - from)
    && events == history[from..from + |events|]
  }

  lemma SinceReturns(w: World, limit: int)
    requires Holds(w.log, w.history)
    ensures Returns(Since(w.log.events, w.client.last, limit), w.history, limit, Evicted(w.log) + StartOf(w))
  {
    SinceCount(w, limit);
    SinceNumbers(w, limit);
    NumberedIsSlice(Since(w.log.events, w.client.last, limit), Evicted(w.log) + StartOf(w), w.history);
  }

  lemma PollReturns(w: World, ns: seq<nat>, limit: int) returns (from: nat, events: seq<Event>)
    requires SeenAs(w, ns)
    ensures from == Resume(|w.history|, Last(ns)) && Last(ns) <= from
    ensures from == (if Last(ns) >= Evicted(w.log) then Last(ns) else Evicted(w.log))
    ensures Returns(events, w.history, limit, from) && Numbered(events, Following(from, |events|), w.history)
    ensures events == Since(w.log.events, w.client.last, limit)
  {
    SeenBounds(w, ns);
    ResumesAfter(w, ns);
    SinceReturns(w, limit);
    SinceNumbers(w, limit);
    from, events := Evicted(w.log) + StartOf(w), Since(w.log.events, w.client.last, limit);
  }

  /** The client after these events were delivered, if there are any. */
  function After(w: World, events: seq<Event>): World {
    if events == [] then w else w.(client := Client(w.client.received + events, events[|events| - 1].id))
  }

  lemma AfterSeen(w: World, ns: seq<nat>, events: seq<Event>, from: nat)
    requires SeenAs(w, ns) && from == if Last(ns) >= Evicted(w.log) then Last(ns) else Evicted(w.log)
    requires Numbered(events, Following(from, |events|), w.history)
    ensures SeenAs(After(w, events), ns + Following(from, |events|))
  {
    if events == [] {
      assert ns + Following(from, 0) == ns;
    } else {
      Received(w, ns, events, from);
    }
  }

  lemma AfterReceived(w: World, events: seq<Event>)
    ensures After(w, events).client.received == w.client.received + events
    ensures After(w, events).history == w.history
    ensures After(w, events) == w <==> events == []
  {
    if events != [] {
      assert |w.client.received + events| > |w.client.received|;
    }
  }

  /** The client has received events as SeenAs says, the last of them number `last`; 0 when there is none. */
  ghost predicate SeenUpTo(w: World, last: nat) {
    exists ns :: SeenAs(w, ns) && Last(ns) == last
  }

  lemma StepIsAfter(w: World, limit: int)
    ensures Step(w, Poll(limit)) == After(w, Since(w.log.events, w.client.last, limit))
  {
  }

  /** What one poll does: it delivers, in order, as many as allowed of the events appended after the last received
      that are among the last thousand. */
  lemma PollDelivers(w: World, last: nat, limit: int) returns (from: nat, events: seq<Event>)
    requires SeenUpTo(w, last)
    ensures from == Resume(|w.history|, last) && last <= from
    ensures Returns(events, w.history, limit, from)
    ensures Step(w, Poll(limit)) == After(w, events)
    ensures SeenUpTo(After(w, events), if events == [] then last else from + |events|)
  {
    var ns :| SeenAs(w, ns) && Last(ns) == last;
    from, events := PollReturns(w, ns, limit);
    AfterUpTo(w, ns, events, from);
    StepIsAfter(w, limit);
  }

  lemma AfterUpTo(w: World, ns: seq<nat>, events: seq<Event>, from: nat)
    requires SeenAs(w, ns) && from == if Last(ns) >= Evicted(w.log) then Last(ns) else Evicted(w.log)
    requires Numbered(events, Following(from, |events|), w.history)
    ensures SeenUpTo(After(w, events), if events == [] then Last(ns) else from + |events|)
  {
    AfterSeen(w, ns, events, from);
    NumbersEnd(ns, from, |events|);
  }

  /** From the last number received to the outcome of a poll, given what the poll appends. */
  ghost predicate FullPoll(w: World, w': World, limit: int, last: nat) {
    && AtNumber(w, last)
    && var from := Resume(|w.history|, last);
       && w'.client.received == w.client.received + w.history[from..from + Allowed(limit, |w.history| - from)]
       && (w' == w <==> last == |w.history|)
  }

  lemma OnePoll(w: World, last: nat, limit: int)
    requires SeenUpTo(w, last)
    ensures FullPoll(w, Step(w, Poll(limit)), limit, last)
  {
    AtLast(w, last);
    var from, events := PollDelivers(w, last, limit);
    FullFrom(w, last, limit, from, events);
  }

  lemma FullFrom(w: World, last: nat, limit: int, from: nat, events: seq<Event>)
    requires AtNumber(w, last) && from == Resume(|w.history|, last) && Returns(events, w.history, limit, from)
    ensures FullPoll(w, After(w, events), limit, last)
  {
    AfterReceived(w, events);
  }

  /** In every reachable world: a poll delivers exactly the allowed number of the held events the client has not
      received, and it is empty exactly when the client has the newest event. */
  lemma PollIsFull(moves: seq<Move>, limit: int) returns (last: nat)
    ensures FullPoll(Run(moves), Run(moves + [Poll(limit)]), limit, last)
  {
    last := ReachesNumber(moves);
    OnePoll(Run(moves), last, limit);
    RunNext(moves, Poll(limit));
  }

  lemma ReachesNumber(moves: seq<Move>) returns (last: nat)
    ensures SeenUpTo(Run(moves), last) && AtNumber(Run(moves), last)
  {
    ClientSeesAll(moves);
    var ns :| SeenAs(Run(moves), ns);
    last := Last(ns);
    AtLast(Run(moves), last);
  }

  lemma RunNext(moves: seq<Move>, m: Move)
    ensures Run(moves + [m]) == Step(Run(moves), m)
  {
    assert (moves + [m])[..|moves|] == moves;
  }

  /** The last event received is the one appended as number `last`; 0 when there is none. */
  predicate AtNumber(w: World, last: nat) {
    && last <= |w.history|
    && (last == 0 <==> w.client.received == [])
    && (last > 0 ==> w.client.received != [] && w.client.received[|w.client.received| - 1] == w.history[last - 1])
  }

  lemma AtLast(w: World, last: nat)
    requires SeenUpTo(w, last)
    ensures AtNumber(w, last)
  {
    var ns :| SeenAs(w, ns) && Last(ns) == last;
    if ns != [] {
      LastInHistory(w.client.received, ns, w.history);
    }
  }

  function Polls(limits: seq<int>): (moves: seq<Move>)
    ensures |moves| == |limits|
  {
    seq(|limits|, i requires 0 <= i < |limits| => Poll(limits[i]))
  }

  /** The most events that polls with these limits can deliver. */
  function Capacity(limits: seq<int>): (n: nat)
    ensures n >= |limits|
  {
    if limits == [] then 0
    else
      var limit := limits[|limits| - 1];
      Capacity(limits[..|limits| - 1]) + if 1 <= limit <= 500 then limit else 100
  }

  function Smaller(a: nat, b: nat): nat {
    if a < b then a else b
  }

  lemma PollsNext(moves: seq<Move>, limits: seq<int>)
    requires limits != []
    ensures moves + Polls(limits) == (moves + Polls(limits[..|limits| - 1])) + [Poll(limits[|limits| - 1])]
  {
  }

  lemma PollAdvances(w: World, last: nat, limits: seq<int>)
    requires limits != [] && last <= |w.history|
    requires SeenUpTo(w, Advanced(|w.history|, last, limits[..|limits| - 1]))
    ensures var w' := Step(w, Poll(limits[|limits| - 1]));
            w'.history == w.history && SeenUpTo(w', Advanced(|w.history|, last, limits))
  {
    var _, events := PollDelivers(w, Advanced(|w.history|, last, limits[..|limits| - 1]), limits[|limits| - 1]);
    AfterReceived(w, events);
    AdvanceStep(|w.history|, last, limits);
  }

  /** Where polls without an append between them leave the client. */
  lemma {:induction false} PollsAdvance(moves: seq<Move>, last: nat, limits: seq<int>)
    requires SeenUpTo(Run(moves), last) && last <= |Run(moves).history|
    ensures Run(moves + Polls(limits)).history == Run(moves).history
    ensures SeenUpTo(Run(moves + Polls(limits)), Advanced(|Run(moves).history|, last, limits))
    decreases |limits|
  {
    if limits == [] {
      assert moves + Polls(limits) == moves;
    } else {
      var front, limit := limits[..|limits| - 1], limits[|limits| - 1];
      PollsAdvance(moves, last, front);
      PollsNext(moves, limits);
      RunNext(moves + Polls(front), Poll(limit));
      PollAdvances(Run(moves + Polls(front)), last, limits);
    }
  }

  /** The number reached from `last` by polls with these limits when `total` events were appended. */
  function Advanced(total: nat, last: nat, limits: seq<int>): nat {
    if limits == [] then last else Smaller(total, Resume(total, last) + Capacity(limits))
  }

  lemma AdvanceStep(total: nat, last: nat, limits: seq<int>)
    requires limits != [] && last <= total
    ensures var mid := Advanced(total, last, limits[..|limits| - 1]);
            var from := Resume(total, mid);
            from <= total && Advanced(total, last, limits) == from + Allowed(limits[|limits| - 1], total - from)
  {
  }

  lemma NumbersEnd(ns: seq<nat>, from: nat, n: nat)
    requires Last(ns) <= from
    ensures Last(ns + Following(from, n)) == if n == 0 then Last(ns) else from + n
  {
  }

  /** Polls without an append between them, enough of them for what is held, bring the client to the newest event;
      a thousand are always enough, whatever their limits. */
  lemma CatchesUp(moves: seq<Move>, limits: seq<int>)
    requires |limits| >= 1000 || (limits != [] && Capacity(limits) >= Smaller(|Run(moves).history|, 1000))
    ensures var w := Run(moves + Polls(limits));
            w.history == Run(moves).history && AtNumber(w, |w.history|)
  {
    var last := ReachesNumber(moves);
    PollsAdvance(moves, last, limits);
    var total := |Run(moves).history|;
    assert Advanced(total, last, limits) == total;
    AtLast(Run(moves + Polls(limits)), total);
  }

  /** While no more than a thousand events were appended, a client has received exactly the first of them. */
  lemma NoneLost(moves: seq<Move>)
    requires |Run(moves).history| <= 1000
    ensures Run(moves).client.received <= Run(moves).history
  {
    ClientSeesAll(moves);
    var ns :| SeenAs(Run(moves), ns);
    NoneMissing(Run(moves), ns);
  }

  lemma NoneMissing(w: World, ns: seq<nat>)
    requires SeenAs(w, ns) && |w.history| <= 1000
    ensures w.client.received <= w.history
  {
    SeenBounds(w, ns);
    if ns != [] {
      Unbroken(ns, |ns| - 1);
      FirstNumbers(w.client.received, ns, w.history);
    }
  }

  lemma FirstNumbers(received: seq<Event>, ns: seq<nat>, history: seq<Event>)
    requires Numbered(received, ns, history) && ns != [] && forall k :: 0 <= k < |ns| ==> ns[k] == k + 1
    ensures received <= history
  {
    assert ns[|ns| - 1] <= |history|;
    assert received == history[..|ns|];
  }

  lemma {:induction false} Unbroken(ns: seq<nat>, i: nat)
    requires Increasing(ns) && i < |ns| && OnlyEvictedMissing(ns, Last(ns), 0)
    requires forall k :: 0 <= k < |ns| ==> ns[k] >= 1
    ensures forall k :: 0 <= k <= i ==> ns[k] == k + 1
  {
    if i > 0 {
      Unbroken(ns, i - 1);
      assert ns[i - 1] == i && ns[i - 1] < ns[i];
    }
    assert i < |ns| - 1 ==> ns[i] < Last(ns);
    assert Got(ns, i + 1);
    var j :| 0 <= j < |ns| && ns[j] == i + 1;
    assert j >= i;
  }
}
