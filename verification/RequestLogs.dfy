// Request logs: the table of active requests, and the protocol by which the goroutines that
// produce log results, the goroutine that closes the channel and the loop that drains it work
// together.

module RequestLogs {
  import opened Wrappers

  // ---------- The table of active requests ----------

  datatype Entry<V> = Entry(value: V, lastAccess: int)

  // What is done to the table, at which second.
  datatype Event<V> = Put(k: string, v: V, now: int) | Get(k: string, now: int) | Delete(k: string) | Sweep(now: int)

  function Applied<V>(m: map<string, Entry<V>>, e: Event<V>, maxTTL: int): map<string, Entry<V>> {
    match e
    case Put(k, v, now) => m[k := Entry(if k in m then m[k].value else v, now)]
    case Get(k, now) => if k in m then m[k := m[k].(lastAccess := now)] else m
    case Delete(k) => m - {k}
    case Sweep(now) => map k | k in m && now - m[k].lastAccess <= maxTTL :: m[k]
  }

  function TableAfter<V>(history: seq<Event<V>>, maxTTL: int): map<string, Entry<V>> {
    if history == [] then map[]
    else Applied(TableAfter(history[..|history| - 1], maxTTL), history[|history| - 1], maxTTL)
  }

  // ---------- The lifetime of an entry ----------

  predicate Touches<V>(e: Event<V>, k: string) {
    (e.Put? || e.Get?) && e.k == k
  }

  // Event i is the last before j that touches the key.
  ghost predicate LastTouch<V>(history: seq<Event<V>>, k: string, i: int, j: int)
    requires j <= |history|
  {
    0 <= i < j && Touches(history[i], k) && forall n :: i < n < j ==> !Touches(history[n], k)
  }

  // At event j the entry goes: it is deleted, or swept more than maxTTL seconds after the last touch.
  ghost predicate Removes<V>(history: seq<Event<V>>, maxTTL: int, k: string, j: int)
    requires 0 <= j < |history|
  {
    || history[j] == Delete(k)
    || (history[j].Sweep? && exists i :: LastTouch(history, k, i, j) && history[j].now - history[i].now > maxTTL)
  }

  // Put i has made, or kept, an entry that is still there.
  ghost predicate Lasts<V>(history: seq<Event<V>>, maxTTL: int, k: string, i: int) {
    && 0 <= i < |history| && history[i].Put? && history[i].k == k
    && forall j :: i < j < |history| ==> !Removes(history, maxTTL, k, j)
  }

  ghost predicate Lives<V>(history: seq<Event<V>>, maxTTL: int, k: string) {
    exists i :: Lasts(history, maxTTL, k, i)
  }

  // The value of the first Put that lasts.
  ghost predicate HasValue<V>(history: seq<Event<V>>, maxTTL: int, k: string, v: V) {
    exists i :: Lasts(history, maxTTL, k, i) && history[i].v == v && forall n :: n < i ==> !Lasts(history, maxTTL, k, n)
  }

  // The time of an entry is that of the last event to touch it.
  lemma {:induction false} EntryTouched<V>(history: seq<Event<V>>, maxTTL: int, k: string)
    requires k in TableAfter(history, maxTTL)
    ensures exists i :: LastTouch(history, k, i, |history|) && history[i].now == TableAfter(history, maxTTL)[k].lastAccess
  {
    var n := |history| - 1;
    var init, e := history[..n], history[n];
    if Touches(e, k) {
      assert LastTouch(history, k, n, n + 1);
    } else {
      EntryTouched(init, maxTTL, k);
      var i :| LastTouch(init, k, i, n) && init[i].now == TableAfter(init, maxTTL)[k].lastAccess;
      assert LastTouch(history, k, i, n + 1);
    }
  }

  // The last event takes the entry away exactly when it removes it.
  lemma LastEventRemoves<V>(history: seq<Event<V>>, maxTTL: int, k: string)
    requires history != [] && k in TableAfter(history[..|history| - 1], maxTTL)
    ensures k !in TableAfter(history, maxTTL) <==> Removes(history, maxTTL, k, |history| - 1)
  {
    var n := |history| - 1;
    var init := history[..n];
    EntryTouched(init, maxTTL, k);
    var i :| LastTouch(init, k, i, n) && init[i].now == TableAfter(init, maxTTL)[k].lastAccess;
    assert LastTouch(history, k, i, n);
    assert forall j :: LastTouch(history, k, j, n) ==> j == i;
  }

  // An entry is in the table exactly while some Put of its key lasts: nothing after it has deleted
  // it, and no sweep came more than maxTTL seconds after the last touch before the sweep. It has the
  // value of the first such Put.
  lemma {:induction false} EntryLives<V>(history: seq<Event<V>>, maxTTL: int, k: string)
    ensures k in TableAfter(history, maxTTL) <==> Lives(history, maxTTL, k)
    ensures k in TableAfter(history, maxTTL) ==> HasValue(history, maxTTL, k, TableAfter(history, maxTTL)[k].value)
  {
    if history != [] {
      var n := |history| - 1;
      var init := history[..n];
      EntryLives(init, maxTTL, k);
      LastsBefore(history, maxTTL, k);
      if k in TableAfter(init, maxTTL) {
        LastEventRemoves(history, maxTTL, k);
        var f :| Lasts(init, maxTTL, k, f) && init[f].v == TableAfter(init, maxTTL)[k].value
              && forall i :: i < f ==> !Lasts(init, maxTTL, k, i);
        if k in TableAfter(history, maxTTL) {
          assert Lasts(history, maxTTL, k, f);
        }
      } else if k in TableAfter(history, maxTTL) {
        assert Lasts(history, maxTTL, k, n);
      }
    }
  }

  lemma LastsBefore<V>(history: seq<Event<V>>, maxTTL: int, k: string)
    requires history != []
    ensures var n := |history| - 1;
            forall i :: i < n ==>
              (Lasts(history, maxTTL, k, i) <==> Lasts(history[..n], maxTTL, k, i) && !Removes(history, maxTTL, k, n))
  {
    var n := |history| - 1;
    var init := history[..n];
    forall i, j | 0 <= j < n
      ensures LastTouch(init, k, i, j) <==> LastTouch(history, k, i, j)
    {
    }
    assert forall j :: 0 <= j < n ==> (Removes(init, maxTTL, k, j) <==> Removes(history, maxTTL, k, j));
  }

  class TTLMap<V> {
    const maxTTL: int
    var m: map<string, Entry<V>>
    ghost var history: seq<Event<V>>

    ghost predicate Valid()
      reads this
    {
      m == TableAfter(history, maxTTL)
    }

    constructor (maxTTL: int)
      ensures Valid() && history == [] && this.maxTTL == maxTTL
    {
      this.maxTTL := maxTTL;
      m, history := map[], [];
    }

    method Put(k: string, v: V, now: int)
      requires Valid()
      modifies this
      ensures Valid() && history == old(history) + [Event.Put(k, v, now)]
      ensures Lives(history, maxTTL, k)
    {
      var it := if k in m then m[k] else Entry(v, now);
      m := m[k := it.(lastAccess := now)];
      Record(Event.Put(k, v, now));
      EntryLives(history, maxTTL, k);
    }

    method Get(k: string, now: int) returns (v: Option<V>)
      requires Valid()
      modifies this
      ensures Valid() && history == old(history) + [Event.Get(k, now)]
      ensures v.Some? <==> Lives(old(history), maxTTL, k)
      ensures v.Some? ==> HasValue(old(history), maxTTL, k, v.value)
    {
      EntryLives(history, maxTTL, k);
      v := if k in m then Some(m[k].value) else None;
      if k in m {
        m := m[k := m[k].(lastAccess := now)];
      }
      Record(Event.Get(k, now));
    }

    method Delete(k: string) returns (v: Option<V>)
      requires Valid()
      modifies this
      ensures Valid() && history == old(history) + [Event.Delete(k)]
      ensures v.Some? <==> Lives(old(history), maxTTL, k)
      ensures v.Some? ==> HasValue(old(history), maxTTL, k, v.value)
      ensures !Lives(history, maxTTL, k)
    {
      EntryLives(history, maxTTL, k);
      v := if k in m then Some(m[k].value) else None;
      m := m - {k};
      Record(Event.Delete(k));
      EntryLives(history, maxTTL, k);
    }

    // One tick of the sweep: exactly the entries idle for more than maxTTL seconds go.
    method Sweep(now: int)
      requires Valid()
      modifies this
      ensures Valid() && history == old(history) + [Event.Sweep(now)]
      ensures m == map k | k in old(m) && now - old(m)[k].lastAccess <= maxTTL :: old(m)[k]
    {
      var before := m;
      var rest := m.Keys;
      while rest != {}
        invariant rest <= before.Keys
        invariant m == map k | k in before && (k in rest || now - before[k].lastAccess <= maxTTL) :: before[k]
        invariant history == old(history)
        decreases rest
      {
        var k :| k in rest;
        if now - before[k].lastAccess > maxTTL {
          m := m - {k};
        }
        rest := rest - {k};
      }
      Record(Event.Sweep(now));
    }

    ghost method Record(e: Event<V>)
      requires m == Applied(TableAfter(history, maxTTL), e, maxTTL)
      modifies this`history
      ensures Valid() && history == old(history) + [e]
    {
      history := history + [e];
      assert history[..|history| - 1] == old(history);
    }
  }

  // ---------- The protocol ----------

  // NotStarted -> Sending (Add and go) -> Sent (the loop received the result) -> Finished (Done).
  datatype Producer = NotStarted | Sending | Sent | Finished

  // The goroutine that waits for the group and then closes the channel.
  datatype Closer = NotSpawned | Waiting | Woken | Closed

  datatype Drain = Idle | Receiving | Ended

  // The channel is unbuffered, so a send and its receive are one step; a send on the closed
  // channel panics.
  datatype State = State(
    producers: seq<Producer>,
    counter: int,
    handling: bool,
    closer: Closer,
    drain: Drain,
    received: seq<nat>,
    panicked: bool)
  {
    predicate Open() { !closer.Closed? }
  }

  datatype Action = Spawn(i: nat) | HandlerReturns | StartDrain | Send(i: nat) | SendOnClosed(i: nat)
                  | Done(i: nat) | Wake | Close | EndDrain

  predicate Enabled(s: State, a: Action) {
    match a
    case Spawn(i) => s.handling && i < |s.producers| && s.producers[i].NotStarted?
    case HandlerReturns => s.handling
    case StartDrain => !s.handling && s.drain.Idle?
    case Send(i) => i < |s.producers| && s.producers[i].Sending? && s.drain.Receiving? && s.Open()
    case SendOnClosed(i) => i < |s.producers| && s.producers[i].Sending? && !s.Open()
    case Done(i) => i < |s.producers| && s.producers[i].Sent?
    case Wake => s.closer.Waiting? && s.counter == 0
    case Close => s.closer.Woken?
    case EndDrain => s.drain.Receiving? && !s.Open()
  }

  function Next(s: State, a: Action): State
    requires Enabled(s, a)
  {
    match a
    case Spawn(i) => s.(producers := s.producers[i := Sending], counter := s.counter + 1)
    case HandlerReturns => s.(handling := false)
    case StartDrain => s.(drain := Receiving, closer := Waiting)
    case Send(i) => s.(producers := s.producers[i := Sent], received := s.received + [i])
    case SendOnClosed(i) => s.(panicked := true)
    case Done(i) => s.(producers := s.producers[i := Finished], counter := s.counter - 1)
    case Wake => s.(closer := Woken)
    case Close => s.(closer := Closed)
    case EndDrain => s.(drain := Ended)
  }

  function Initial(n: nat): State {
    State(seq(n, _ => NotStarted), 0, true, NotSpawned, Idle, [], false)
  }

  // The state after the actions in trace, if each of them is enabled in turn.
  function After(n: nat, trace: seq<Action>): Option<State> {
    if trace == [] then Some(Initial(n))
    else
      var before, action := After(n, trace[..|trace| - 1]), trace[|trace| - 1];
      if before.Some? && Enabled(before.value, action) then Some(Next(before.value, action)) else None
  }

  predicate Reaches(n: nat, trace: seq<Action>, s: State) {
    After(n, trace) == Some(s)
  }

  predicate Active(p: Producer) { p.Sending? || p.Sent? }

  function ActiveCount(ps: seq<Producer>): nat {
    if ps == [] then 0
    else ActiveCount(ps[..|ps| - 1]) + (if Active(ps[|ps| - 1]) then 1 else 0)
  }

  ghost predicate Quiet(s: State) {
    forall i :: 0 <= i < |s.producers| ==> !Active(s.producers[i])
  }

  ghost predicate Invariant(s: State) {
    && !s.panicked
    && s.counter == ActiveCount(s.producers)
    && (s.closer.NotSpawned? <==> s.drain.Idle?)
    && (!s.drain.Idle? ==> !s.handling)
    && (s.closer.Woken? || s.closer.Closed? ==> Quiet(s))
    && (s.drain.Ended? ==> s.closer.Closed?)
    && (forall i, j :: 0 <= i < j < |s.received| ==> s.received[i] != s.received[j])
    && (forall i :: i in s.received <==> 0 <= i < |s.producers| && (s.producers[i].Sent? || s.producers[i].Finished?))
    && (s.drain.Idle? ==> s.received == [])
  }

  lemma {:induction false} CountUpdate(ps: seq<Producer>, i: nat, p: Producer)
    requires i < |ps|
    ensures ActiveCount(ps[i := p]) == ActiveCount(ps) - (if Active(ps[i]) then 1 else 0) + (if Active(p) then 1 else 0)
  {
    var n := |ps| - 1;
    if i == n {
      assert ps[i := p][..n] == ps[..n];
    } else {
      assert ps[i := p][..n] == ps[..n][i := p];
      CountUpdate(ps[..n], i, p);
    }
  }

  lemma {:induction false} CountZero(ps: seq<Producer>)
    ensures ActiveCount(ps) == 0 <==> forall i :: 0 <= i < |ps| ==> !Active(ps[i])
  {
    if ps != [] {
      CountZero(ps[..|ps| - 1]);
    }
  }

  lemma StepKeepsInvariant(s: State, a: Action)
    requires Invariant(s) && Enabled(s, a)
    ensures Invariant(Next(s, a))
  {
    match a
    case Spawn(i) => CountUpdate(s.producers, i, Sending);
    case Send(i) =>
      CountUpdate(s.producers, i, Sent);
      assert i !in s.received;
      var s' := Next(s, a);
      assert forall j :: j in s'.received <==> j in s.received || j == i;
    case Done(i) => CountUpdate(s.producers, i, Finished);
    case Wake => CountZero(s.producers);
    case _ =>
  }

  lemma {:induction false} ReachableInvariant(n: nat, trace: seq<Action>, s: State)
    requires Reaches(n, trace, s)
    ensures Invariant(s) && |s.producers| == n
    decreases |trace|
  {
    if trace == [] {
      CountZero(s.producers);
    } else {
      var init := trace[..|trace| - 1];
      var mid := After(n, init).value;
      ReachableInvariant(n, init, mid);
      StepKeepsInvariant(mid, trace[|trace| - 1]);
    }
  }

  // In every interleaving nothing is ever sent on the closed channel and no result is received
  // twice; when the loop has ended, every producer that was started has finished and exactly the
  // results of those producers have been received.
  lemma DrainIsSafe(n: nat, trace: seq<Action>, s: State)
    requires Reaches(n, trace, s)
    ensures !s.panicked && forall i :: !Enabled(s, SendOnClosed(i))
    ensures forall i, j :: 0 <= i < j < |s.received| ==> s.received[i] != s.received[j]
    ensures |s.producers| == n
    ensures s.drain.Ended? ==>
              && (forall i :: 0 <= i < n ==> s.producers[i].NotStarted? || s.producers[i].Finished?)
              && (forall i :: i in s.received <==> 0 <= i < n && !s.producers[i].NotStarted?)
  {
    ReachableInvariant(n, trace, s);
  }

  // ---------- Progress ----------

  function ProducerWork(p: Producer): nat {
    match p
    case NotStarted => 3
    case Sending => 2
    case Sent => 1
    case Finished => 0
  }

  function TotalWork(ps: seq<Producer>): nat {
    if ps == [] then 0 else TotalWork(ps[..|ps| - 1]) + ProducerWork(ps[|ps| - 1])
  }

  function Work(s: State): nat {
    TotalWork(s.producers) + (if s.handling then 1 else 0)
    + (match s.closer case NotSpawned => 3 case Waiting => 2 case Woken => 1 case Closed => 0)
    + (match s.drain case Idle => 2 case Receiving => 1 case Ended => 0)
  }

  lemma {:induction false} WorkUpdate(ps: seq<Producer>, i: nat, p: Producer)
    requires i < |ps|
    ensures TotalWork(ps[i := p]) == TotalWork(ps) - ProducerWork(ps[i]) + ProducerWork(p)
  {
    var n := |ps| - 1;
    if i == n {
      assert ps[i := p][..n] == ps[..n];
    } else {
      assert ps[i := p][..n] == ps[..n][i := p];
      WorkUpdate(ps[..n], i, p);
    }
  }

  // Every step does some of a finite amount of work, and as long as the loop has not ended, or a
  // producer has not finished, there is a step to take: every run that goes on ends the loop.
  lemma DrainMakesProgress(n: nat, trace: seq<Action>, s: State)
    requires Reaches(n, trace, s)
    ensures forall a :: Enabled(s, a) ==> Work(Next(s, a)) < Work(s)
    ensures !s.drain.Ended? || !Quiet(s) ==> exists a :: Enabled(s, a)
  {
    ReachableInvariant(n, trace, s);
    forall a | Enabled(s, a)
      ensures Work(Next(s, a)) < Work(s)
    {
      match a
      case Spawn(i) => WorkUpdate(s.producers, i, Sending);
      case Send(i) => WorkUpdate(s.producers, i, Sent);
      case Done(i) => WorkUpdate(s.producers, i, Finished);
      case _ =>
    }
    if s.handling {
      assert Enabled(s, HandlerReturns);
    } else if s.drain.Idle? {
      assert Enabled(s, StartDrain);
    } else if s.closer.Woken? {
      assert Enabled(s, Close);
    } else if s.closer.Closed? {
      if s.drain.Receiving? {
        assert Enabled(s, EndDrain);
      }
    } else if Quiet(s) {
      CountZero(s.producers);
      assert Enabled(s, Wake);
    } else {
      var i :| 0 <= i < |s.producers| && Active(s.producers[i]);
      assert if s.producers[i].Sent? then Enabled(s, Done(i)) else Enabled(s, Send(i));
    }
  }

  // While nobody drains, a started producer stays where it is: no result is ever received.
  lemma NobodyDrains(n: nat, trace: seq<Action>, s: State)
    requires Reaches(n, trace, s) && s.drain.Idle?
    ensures |s.producers| == n && s.received == []
    ensures forall i :: 0 <= i < n ==> s.producers[i].NotStarted? || s.producers[i].Sending?
    ensures forall i :: !Enabled(s, Send(i)) && !Enabled(s, Done(i))
  {
    ReachableInvariant(n, trace, s);
    forall i | 0 <= i < n
      ensures s.producers[i].NotStarted? || s.producers[i].Sending?
    {
      assert i !in s.received;
    }
  }

  // ---------- The table of changes per stage ----------

  datatype Log = Log(logType: string, logTime: string, stage: string, data: string)

  // None is the zero value of the Go struct.
  datatype Change = Change(before: Option<Log>, after: Option<Log>)

  type Table = map<string, Change>

  function Recorded(table: Table, log: Log): Table {
    if log.logType != "request" then table
    else
      var change := if log.stage in table then table[log.stage] else Change(None, None);
      table[log.stage := if log.logTime == "before" then change.(before := Some(log))
                         else if log.logTime == "after" then change.(after := Some(log))
                         else change]
  }

  // requestChangesByStage after the results have arrived in the given order.
  function TableOf(arrived: seq<Log>): Table {
    if arrived == [] then map[] else Recorded(TableOf(arrived[..|arrived| - 1]), arrived[|arrived| - 1])
  }

  // The request side of the loop in recordResponse.
  method DrainLoop(arrived: seq<Log>) returns (table: Table)
    ensures table == TableOf(arrived)
  {
    table := map[];
    for k := 0 to |arrived|
      invariant table == TableOf(arrived[..k])
    {
      assert arrived[..k + 1][..k] == arrived[..k];
      var result := arrived[k];
      if result.logType == "request" {
        var requestChange := Change(None, None);
        if result.stage in table {
          requestChange := table[result.stage];
        }
        if result.logTime == "before" {
          requestChange := requestChange.(before := Some(result));
        } else if result.logTime == "after" {
          requestChange := requestChange.(after := Some(result));
        }
        table := table[result.stage := requestChange];
      }
    }
    assert arrived[..|arrived|] == arrived;
  }

  predicate InCell(log: Log, stage: string, time: string) {
    log.logType == "request" && log.stage == stage && log.logTime == time
  }

  function Cell(table: Table, stage: string, time: string): Option<Log> {
    if stage !in table then None
    else if time == "before" then table[stage].before
    else if time == "after" then table[stage].after
    else None
  }

  // The k-th result to arrive is the last one for the cell.
  ghost predicate LastFor(arrived: seq<Log>, stage: string, time: string, k: int) {
    && 0 <= k < |arrived| && InCell(arrived[k], stage, time)
    && forall j :: k < j < |arrived| ==> !InCell(arrived[j], stage, time)
  }

  // A cell holds the last result that belongs there, if there is one, and a stage is listed when
  // some request result names it.
  lemma {:induction false} CellHolds(arrived: seq<Log>, stage: string, time: string)
    requires time == "before" || time == "after"
    ensures stage in TableOf(arrived) <==> exists l :: l in arrived && l.logType == "request" && l.stage == stage
    ensures Cell(TableOf(arrived), stage, time).None? <==> forall l :: l in arrived ==> !InCell(l, stage, time)
    ensures Cell(TableOf(arrived), stage, time).Some? ==>
              exists k :: LastFor(arrived, stage, time, k) && Cell(TableOf(arrived), stage, time) == Some(arrived[k])
  {
    if arrived != [] {
      var init, last := arrived[..|arrived| - 1], arrived[|arrived| - 1];
      assert last in arrived && forall l :: l in arrived <==> l in init || l == last;
      CellHolds(init, stage, time);
      if InCell(last, stage, time) {
        assert LastFor(arrived, stage, time, |arrived| - 1);
      } else if Cell(TableOf(init), stage, time).Some? {
        var k :| LastFor(init, stage, time, k) && Cell(TableOf(init), stage, time) == Some(init[k]);
        assert LastFor(arrived, stage, time, k) && arrived[k] == init[k];
      }
    }
  }

  // Two request results clash when they are different and belong in the same cell.
  predicate Clash(a: Log, b: Log) {
    a != b && a.logTime in ["before", "after"] && InCell(a, a.stage, a.logTime) && InCell(b, a.stage, a.logTime)
  }

  ghost predicate NoClash(logs: seq<Log>) {
    forall a, b :: a in logs && b in logs ==> !Clash(a, b)
  }

  lemma SameCell(p: seq<Log>, q: seq<Log>, stage: string, time: string)
    requires time == "before" || time == "after"
    requires (forall l :: l in p <==> l in q) && NoClash(p)
    ensures stage in TableOf(p) <==> stage in TableOf(q)
    ensures Cell(TableOf(p), stage, time) == Cell(TableOf(q), stage, time)
  {
    CellHolds(p, stage, time);
    CellHolds(q, stage, time);
    var a, b := Cell(TableOf(p), stage, time), Cell(TableOf(q), stage, time);
    if a.Some? && b.Some? {
      assert !Clash(a.value, b.value);
    }
  }

  lemma SameTable(p: seq<Log>, q: seq<Log>)
    requires (forall l :: l in p <==> l in q) && NoClash(p)
    ensures TableOf(p) == TableOf(q)
  {
    var a, b := TableOf(p), TableOf(q);
    forall stage
      ensures stage in a <==> stage in b
      ensures stage in a ==> a[stage] == b[stage]
    {
      SameCell(p, q, stage, "before");
      SameCell(p, q, stage, "after");
    }
  }

  lemma {:induction false} Listing(logs: multiset<Log>) returns (list: seq<Log>)
    ensures multiset(list) == logs
    decreases |logs|
  {
    if logs == multiset{} {
      list := [];
    } else {
      var l :| l in logs;
      var init := Listing(logs - multiset{l});
      list := init + [l];
    }
  }

  lemma LastInCell(init: seq<Log>, a: Log)
    requires a.logType == "request" && a.logTime in ["before", "after"]
    ensures Cell(TableOf(init + [a]), a.stage, a.logTime) == Some(a)
  {
    assert (init + [a])[..|init|] == init;
  }

  lemma SwappedDiffer(rest: seq<Log>, a: Log, b: Log)
    requires Clash(a, b)
    ensures TableOf(rest + [a] + [b]) != TableOf(rest + [b] + [a])
  {
    LastInCell(rest + [a], b);
    LastInCell(rest + [b], a);
  }

  lemma ClashingOrders(logs: seq<Log>, a: Log, b: Log) returns (p: seq<Log>, q: seq<Log>)
    requires a in logs && b in logs && Clash(a, b)
    ensures multiset(p) == multiset(logs) && multiset(q) == multiset(logs)
    ensures TableOf(p) != TableOf(q)
  {
    assert a in multiset(logs) && b in multiset(logs);
    var rest := Listing(multiset(logs) - multiset{a, b});
    p, q := rest + [a] + [b], rest + [b] + [a];
    assert multiset(p) == multiset(logs) && multiset(q) == multiset(logs);
    SwappedDiffer(rest, a, b);
  }

  lemma SameElements(p: seq<Log>, q: seq<Log>)
    requires multiset(p) == multiset(q)
    ensures forall l :: l in p <==> l in q
  {
    assert forall l :: (l in p <==> l in multiset(p)) && (l in q <==> l in multiset(q));
  }

  ghost predicate OrderFree(logs: seq<Log>) {
    forall p, q :: multiset(p) == multiset(logs) && multiset(q) == multiset(logs) ==> TableOf(p) == TableOf(q)
  }

  // The table is the same for every order of arrival exactly when no two results clash.
  lemma TableOrderFreeIff(logs: seq<Log>)
    ensures OrderFree(logs) <==> NoClash(logs)
  {
    if NoClash(logs) {
      forall p, q | multiset(p) == multiset(logs) && multiset(q) == multiset(logs)
        ensures TableOf(p) == TableOf(q)
      {
        SameElements(p, logs);
        SameElements(q, logs);
        SameTable(p, q);
      }
    } else {
      var a, b :| a in logs && b in logs && Clash(a, b);
      var p, q := ClashingOrders(logs, a, b);
    }
  }

  // The results in the order in which a run has received them.
  function Arrival(logs: seq<Log>, received: seq<nat>): seq<Log> {
    seq(|received|, k requires 0 <= k < |received| => if received[k] < |logs| then logs[received[k]] else Log("", "", "", ""))
  }

  lemma ArrivalHas(logs: seq<Log>, received: seq<nat>, l: Log)
    requires forall i :: i in received ==> i < |logs|
    ensures l in Arrival(logs, received) <==> exists i :: i in received && logs[i] == l
  {
    var arrived := Arrival(logs, received);
    if l in arrived {
      var k :| 0 <= k < |arrived| && arrived[k] == l;
      assert received[k] in received;
    }
    if i :| i in received && logs[i] == l {
      var k :| 0 <= k < |received| && received[k] == i;
      assert arrived[k] == l;
    }
  }

  // Two runs that started the same producers end with the same table, whatever the interleaving.
  lemma RunsAgree(logs: seq<Log>, t1: seq<Action>, s1: State, t2: seq<Action>, s2: State)
    requires Reaches(|logs|, t1, s1) && Reaches(|logs|, t2, s2) && s1.drain.Ended? && s2.drain.Ended?
    requires forall i :: i in s1.received <==> i in s2.received
    requires NoClash(logs)
    ensures TableOf(Arrival(logs, s1.received)) == TableOf(Arrival(logs, s2.received))
  {
    DrainIsSafe(|logs|, t1, s1);
    DrainIsSafe(|logs|, t2, s2);
    var p, q := Arrival(logs, s1.received), Arrival(logs, s2.received);
    forall l
      ensures l in p <==> l in q
      ensures l in p ==> l in logs
    {
      ArrivalHas(logs, s1.received, l);
      ArrivalHas(logs, s2.received, l);
    }
    SameTable(p, q);
  }
}
