/** The page's reads from the server: one request for one question however many ask at once, each
    reader free to stop waiting, and an answer remembered only where it is whole. */
module Reads {
  import opened Trading

  /** A question as it is filed: its route, and what was asked of it in which book. */
  datatype Key = Key(route: string, rest: string)

  /** The routes asked of the server each time, never answered from memory. */
  predicate AskedEachTime(route: string) {
    route in {"GET /api/symbols/quote", "GET /api/figures/trades", "GET /api/news/symbol", "GET /api/filings",
        "GET /api/agents/log"}
  }

  /** An answer: whether it is one, whether it names no source it could not read, and whether the
      question's asker takes it as final. */
  datatype Answer = Answer(ok: bool, whole: bool, final: bool) {
    predicate Kept() {
      ok && whole && final
    }
  }

  type FlightId = nat
  type Signal = nat

  /** A request: the question, when it was asked, whether it is the page's own, how many readers
      stay for it, whether it was stopped, and its answer once that came. */
  datatype Flight = Flight(key: Key, at: int, own: bool, readers: int, stopped: bool, answer: Option<Answer>) {
    predicate InAir() {
      answer.None? && !stopped
    }
  }

  /** What became of a reader: it left on its signal, before the answer or after it. */
  datatype Fate = Waiting | Given | Left(early: bool)

  datatype Reader = Reader(flight: FlightId, signal: Option<Signal>, fate: Fate)

  datatype Memory = Memory(at: int, flight: FlightId)

  /** How a read is answered: from memory, with nothing since its signal had gone already, or by
      a flight it waits for. */
  datatype Reply = Held(flight: FlightId) | Aborted | Waits(reader: nat)

  datatype World = World(
    asked: map<Key, Memory>, flying: map<Key, FlightId>, flights: seq<Flight>, readers: seq<Reader>,
    pageReads: int, idle: seq<nat>, gone: set<Signal>)

  datatype Event =
    | Read(key: Key, own: bool, signal: Option<Signal>, maxAge: Option<int>, now: int)
    | Abort(of: Signal)
    | Answered(flight: FlightId, answer: Answer)
    | Settled(reader: nat)
    | WhenIdle(waiter: nat)
    | AskAgain(prefix: Option<string>)

  const OPENED := World(map[], map[], [], [], 0, [], {})

  // ----- what each event does

  predicate Remembered(w: World, key: Key, maxAge: Option<int>, now: int) {
    !AskedEachTime(key.route) && key in w.asked && (maxAge.None? || now - w.asked[key].at < maxAge.value)
  }

  /** A new request for a question, none of its own being in the air. */
  function Fly(w: World, key: Key, own: bool, now: int): World {
    w.(flights := w.flights + [Flight(key, now, own, 0, false, None)],
       flying := w.flying[key := |w.flights|],
       pageReads := if own then w.pageReads + 1 else w.pageReads)
  }

  function Join(w: World, f: FlightId, signal: Option<Signal>): World
    requires f < |w.flights|
  {
    w.(flights := w.flights[f := w.flights[f].(readers := w.flights[f].readers + 1)],
       readers := w.readers + [Reader(f, signal, Waiting)])
  }

  function OnRead(w: World, key: Key, own: bool, signal: Option<Signal>, maxAge: Option<int>, now: int): World {
    if Remembered(w, key, maxAge, now) || (signal.Some? && signal.value in w.gone) then w
    else
      var w1 := if key in w.flying then w else Fly(w, key, own, now);
      if w1.flying[key] < |w1.flights| then Join(w1, w1.flying[key], signal) else w1
  }

  /** A reader whose signal fires stops waiting; the last to go stops the request, if that is
      still the one in the air for its question. */
  function Leave(w: World, r: nat): World
    requires r < |w.readers| && w.readers[r].flight < |w.flights|
  {
    var f := w.readers[r].flight;
    var was := w.flights[f];
    var left := was.(readers := was.readers - 1);
    var readers := w.readers[r := w.readers[r].(fate := Left(was.answer.None?))];
    if left.readers == 0 && was.key in w.flying && w.flying[was.key] == f then
      w.(readers := readers, flights := w.flights[f := left.(stopped := true)], flying := w.flying - {was.key})
    else
      w.(readers := readers, flights := w.flights[f := left])
  }

  predicate Listens(w: World, r: nat, s: Signal)
    requires r < |w.readers|
  {
    w.readers[r].fate.Waiting? && w.readers[r].signal == Some(s) && w.readers[r].flight < |w.flights|
  }

  /** The first `n` readers, each that listens to the signal leaving in turn. */
  function LeaveAll(w: World, s: Signal, n: nat): (w': World)
    ensures |w'.readers| == |w.readers| && |w'.flights| == |w.flights|
  {
    if n == 0 then w
    else
      var w1 := LeaveAll(w, s, n - 1);
      if n <= |w1.readers| && Listens(w1, n - 1, s) then Leave(w1, n - 1) else w1
  }

  function OnAbort(w: World, s: Signal): World {
    if s in w.gone then w else LeaveAll(w.(gone := w.gone + {s}), s, |w.readers|)
  }

  function OnAnswer(w: World, f: FlightId, a: Answer): World
    requires f < |w.flights|
  {
    var was := w.flights[f];
    var count := if was.own then w.pageReads - 1 else w.pageReads;
    w.(flights := w.flights[f := was.(answer := Some(a))],
       pageReads := count,
       idle := if was.own && count == 0 then [] else w.idle,
       flying := if was.key in w.flying && w.flying[was.key] == f then w.flying - {was.key} else w.flying,
       asked := if a.Kept() && !AskedEachTime(was.key.route) then w.asked[was.key := Memory(was.at, f)] else w.asked)
  }

  function OnSettle(w: World, r: nat): World
    requires r < |w.readers|
  {
    w.(readers := w.readers[r := w.readers[r].(fate := Given)])
  }

  predicate CanSettle(w: World, r: nat) {
    r < |w.readers| && w.readers[r].fate.Waiting? && w.readers[r].flight < |w.flights|
    && w.flights[w.readers[r].flight].answer.Some?
  }

  function OnWhenIdle(w: World, waiter: nat): World {
    if w.pageReads != 0 then w.(idle := w.idle + [waiter]) else w
  }

  function OnAskAgain(w: World, prefix: Option<string>): World {
    w.(asked := map k | k in w.asked && prefix.Some? && k.route != prefix.value :: w.asked[k])
  }

  /** One event, where it can happen: a request is answered once, and its answer reaches each
      reader still waiting in a moment of its own. */
  function Step(w: World, e: Event): World {
    match e
    case Read(key, own, signal, maxAge, now) => OnRead(w, key, own, signal, maxAge, now)
    case Abort(s) => OnAbort(w, s)
    case Answered(f, a) => if f < |w.flights| && w.flights[f].answer.None? then OnAnswer(w, f, a) else w
    case Settled(r) => if CanSettle(w, r) then OnSettle(w, r) else w
    case WhenIdle(waiter) => OnWhenIdle(w, waiter)
    case AskAgain(prefix) => OnAskAgain(w, prefix)
  }

  /** Any interleaving of reads, aborts and answers. */
  function Run(w: World, es: seq<Event>): World {
    if es == [] then w else Step(Run(w, es[..|es| - 1]), es[|es| - 1])
  }

  // ----- counts

  /** The readers of a flight that have not left. */
  function Staying(readers: seq<Reader>, f: FlightId): (n: nat) {
    if readers == [] then 0
    else
      var r := readers[|readers| - 1];
      Staying(readers[..|readers| - 1], f) + if r.flight == f && !r.fate.Left? then 1 else 0
  }

  /** The page's own requests not answered yet. */
  function Unanswered(flights: seq<Flight>): (n: nat) {
    if flights == [] then 0
    else
      var f := flights[|flights| - 1];
      Unanswered(flights[..|flights| - 1]) + if f.own && f.answer.None? then 1 else 0
  }

  lemma {:induction false} StayingSet(readers: seq<Reader>, r: nat, to: Reader, f: FlightId)
    requires r < |readers| && readers[r].flight == to.flight
    ensures Staying(readers[r := to], f) == Staying(readers, f)
            + (if to.flight == f && !to.fate.Left? then 1 else 0)
            - (if to.flight == f && !readers[r].fate.Left? then 1 else 0)
  {
    var n := |readers| - 1;
    if r < n {
      StayingSet(readers[..n], r, to, f);
      assert readers[r := to][..n] == readers[..n][r := to];
    } else {
      assert readers[r := to][..n] == readers[..n];
    }
  }

  lemma StayingAdd(readers: seq<Reader>, r: Reader, f: FlightId)
    ensures Staying(readers + [r], f) == Staying(readers, f) + if r.flight == f && !r.fate.Left? then 1 else 0
  {
    assert (readers + [r])[..|readers|] == readers;
  }

  lemma {:induction false} SomeStays(readers: seq<Reader>, f: FlightId)
    ensures Staying(readers, f) > 0
            <==> exists r :: 0 <= r < |readers| && readers[r].flight == f && !readers[r].fate.Left?
  {
    if readers != [] {
      var n := |readers| - 1;
      SomeStays(readers[..n], f);
      if exists r :: 0 <= r < |readers| && readers[r].flight == f && !readers[r].fate.Left? {
        var r :| 0 <= r < |readers| && readers[r].flight == f && !readers[r].fate.Left?;
        if r < n {
          assert readers[..n][r] == readers[r];
        }
      }
    }
  }

  lemma {:induction false} NoneStays(readers: seq<Reader>, f: FlightId)
    requires forall r :: 0 <= r < |readers| ==> readers[r].flight != f
    ensures Staying(readers, f) == 0
  {
    if readers != [] {
      NoneStays(readers[..|readers| - 1], f);
    }
  }

  lemma {:induction false} UnansweredSet(flights: seq<Flight>, f: FlightId, to: Flight)
    requires f < |flights| && to.own == flights[f].own
    ensures Unanswered(flights[f := to]) == Unanswered(flights)
            + (if to.own && to.answer.None? then 1 else 0) - (if to.own && flights[f].answer.None? then 1 else 0)
  {
    var n := |flights| - 1;
    if f < n {
      UnansweredSet(flights[..n], f, to);
      assert flights[f := to][..n] == flights[..n][f := to];
    } else {
      assert flights[f := to][..n] == flights[..n];
    }
  }

  lemma UnansweredAdd(flights: seq<Flight>, f: Flight)
    ensures Unanswered(flights + [f]) == Unanswered(flights) + if f.own && f.answer.None? then 1 else 0
  {
    assert (flights + [f])[..|flights|] == flights;
  }

  // ----- what holds throughout

  /** The flights registered are exactly those in the air, each under its own question: so no two
      in the air are of one question. */
  ghost predicate Registered(flying: map<Key, FlightId>, flights: seq<Flight>) {
    && (forall k :: k in flying ==> flying[k] < |flights| && flights[flying[k]].key == k && flights[flying[k]].InAir())
    && (forall f :: 0 <= f < |flights| && flights[f].InAir() ==>
          flights[f].key in flying && flying[flights[f].key] == f)
  }

  /** Each flight counts the readers that stay for it. */
  ghost predicate ReadersCounted(flights: seq<Flight>, readers: seq<Reader>) {
    && (forall r :: 0 <= r < |readers| ==> readers[r].flight < |flights|)
    && (forall f :: 0 <= f < |flights| ==> flights[f].readers == Staying(readers, f))
  }

  /** The page counts its own requests unanswered, and who waits for none waits only while one is. */
  ghost predicate PageCounted(pageReads: int, idle: seq<nat>, flights: seq<Flight>) {
    pageReads == Unanswered(flights) && (idle != [] ==> pageReads > 0)
  }

  ghost predicate AllLeftEarly(readers: seq<Reader>, f: FlightId) {
    forall r :: 0 <= r < |readers| && readers[r].flight == f ==> readers[r].fate == Left(true)
  }

  /** A request is stopped exactly when every reader of it gave a signal and left before its
      answer; until then, in the air, it has a reader. */
  ghost predicate StoppedRight(flights: seq<Flight>, readers: seq<Reader>) {
    forall f :: 0 <= f < |flights| ==> StopRight(flights[f], readers, f)
  }

  ghost predicate StopRight(x: Flight, readers: seq<Reader>, f: FlightId) {
    && (x.stopped <==> AllLeftEarly(readers, f))
    && (x.InAir() ==> x.readers > 0)
    && (forall r :: 0 <= r < |readers| && readers[r].flight == f && readers[r].fate == Left(false) ==> x.answer.Some?)
  }

  /** Who left gave a signal, which fired; who waits has none that fired; who was given something
      was given an answer. Of the readers from `n` on, some may still wait on `s`, firing now. */
  ghost predicate FatesRight(flights: seq<Flight>, readers: seq<Reader>, gone: set<Signal>, s: Option<Signal>, n: nat) {
    forall r :: 0 <= r < |readers| && readers[r].flight < |flights| ==>
      var x := readers[r];
      && (x.fate.Left? ==> x.signal.Some? && x.signal.value in gone)
      && (x.fate.Waiting? && x.signal.Some? && x.signal.value in gone ==> x.signal == s && r >= n)
      && (x.fate.Given? ==> flights[x.flight].answer.Some?)
  }

  /** What is remembered is a whole answer to that very question, and to one that is not asked
      each time. */
  ghost predicate MemoryRight(asked: map<Key, Memory>, flights: seq<Flight>) {
    forall k :: k in asked ==>
      && asked[k].flight < |flights|
      && var f := flights[asked[k].flight];
         f.key == k && f.at == asked[k].at && f.answer.Some? && f.answer.value.Kept() && !AskedEachTime(k.route)
  }

  ghost predicate Aligned(w: World) {
    && Registered(w.flying, w.flights) && ReadersCounted(w.flights, w.readers) && PageCounted(w.pageReads, w.idle,
        w.flights)
    && StoppedRight(w.flights, w.readers) && MemoryRight(w.asked, w.flights)
  }

  ghost predicate Valid(w: World) {
    Aligned(w) && FatesRight(w.flights, w.readers, w.gone, None, 0)
  }

  // ----- a reader joins

  lemma JoinCounts(w: World, f: FlightId, signal: Option<Signal>)
    requires ReadersCounted(w.flights, w.readers) && PageCounted(w.pageReads, w.idle, w.flights) && f < |w.flights|
    ensures var w' := Join(w, f, signal); ReadersCounted(w'.flights, w'.readers) && PageCounted(w'.pageReads,
        w'.idle, w'.flights)
  {
    hide Staying, Unanswered;
    var w' := Join(w, f, signal);
    UnansweredSet(w.flights, f, w'.flights[f]);
    forall g | 0 <= g < |w'.flights| ensures w'.flights[g].readers == Staying(w'.readers, g) {
      StayingAdd(w.readers, Reader(f, signal, Waiting), g);
    }
  }

  lemma FlyCounts(w: World, key: Key, own: bool, now: int)
    requires ReadersCounted(w.flights, w.readers) && PageCounted(w.pageReads, w.idle, w.flights)
    ensures var w' := Fly(w, key, own, now); ReadersCounted(w'.flights, w'.readers) && PageCounted(w'.pageReads,
        w'.idle, w'.flights)
  {
    hide Staying, Unanswered;
    UnansweredAdd(w.flights, Flight(key, now, own, 0, false, None));
    NoneStays(w.readers, |w.flights|);
  }

  lemma JoinStops(w: World, f: FlightId, signal: Option<Signal>)
    requires f < |w.flights| && w.flights[f].InAir() && ReadersCounted(w.flights, w.readers)
    requires forall g :: 0 <= g < |w.flights| && g != f ==> StopRight(w.flights[g], w.readers, g)
    requires forall r :: 0 <= r < |w.readers| && w.readers[r].flight == f ==> w.readers[r].fate != Left(false)
    ensures var w' := Join(w, f, signal); StoppedRight(w'.flights, w'.readers)
  {
    hide Staying;
    var w' := Join(w, f, signal);
    forall g | 0 <= g < |w'.flights| ensures StopRight(w'.flights[g], w'.readers, g) {
      if g == f {
        assert w'.readers[|w.readers|].flight == f;
        assert w.flights[f].readers == Staying(w.readers, f);
      } else {
        LeftEarlyAdd(w.readers, Reader(f, signal, Waiting), g);
      }
    }
  }

  lemma LeftEarlyAdd(readers: seq<Reader>, r: Reader, f: FlightId)
    requires r.flight != f
    ensures AllLeftEarly(readers + [r], f) <==> AllLeftEarly(readers, f)
  {
    assert forall q :: 0 <= q < |readers| ==> (readers + [r])[q] == readers[q];
  }

  lemma LeftEarlySet(readers: seq<Reader>, r: nat, to: Reader, f: FlightId)
    requires r < |readers| && readers[r].flight == to.flight && to.flight != f
    ensures AllLeftEarly(readers[r := to], f) <==> AllLeftEarly(readers, f)
  {
    if AllLeftEarly(readers[r := to], f) {
      forall q | 0 <= q < |readers| && readers[q].flight == f ensures readers[q].fate == Left(true) {
        assert readers[r := to][q] == readers[q];
      }
    }
  }

  /** A reader joins the flight in the air for its question. */
  lemma JoinKeeps(w: World, f: FlightId, signal: Option<Signal>)
    requires Registered(w.flying, w.flights) && ReadersCounted(w.flights, w.readers)
    requires PageCounted(w.pageReads, w.idle, w.flights)
    requires MemoryRight(w.asked, w.flights) && f < |w.flights| && w.flights[f].InAir()
    requires forall g :: 0 <= g < |w.flights| && g != f ==> StopRight(w.flights[g], w.readers, g)
    requires forall r :: 0 <= r < |w.readers| && w.readers[r].flight == f ==> w.readers[r].fate != Left(false)
    requires FatesRight(w.flights, w.readers, w.gone, None, 0) && (signal.Some? ==> signal.value !in w.gone)
    ensures Valid(Join(w, f, signal))
  {
    assert forall r :: 0 <= r < |w.readers| ==> w.readers[r].flight < |w.flights|;
    hide StoppedRight, StopRight, ReadersCounted, PageCounted, Registered, MemoryRight, FatesRight;
    JoinCounts(w, f, signal);
    JoinStops(w, f, signal);
    JoinRegisters(w, f, signal);
    JoinFates(w, f, signal);
  }

  lemma JoinRegisters(w: World, f: FlightId, signal: Option<Signal>)
    requires Registered(w.flying, w.flights) && MemoryRight(w.asked, w.flights) && f < |w.flights|
    ensures var w' := Join(w, f, signal); Registered(w'.flying, w'.flights) && MemoryRight(w'.asked, w'.flights)
  {
  }

  lemma JoinFates(w: World, f: FlightId, signal: Option<Signal>)
    requires FatesRight(w.flights, w.readers, w.gone, None, 0) && (signal.Some? ==> signal.value !in w.gone)
    requires f < |w.flights|
    requires forall r :: 0 <= r < |w.readers| ==> w.readers[r].flight < |w.flights|
    ensures var w' := Join(w, f, signal); FatesRight(w'.flights, w'.readers, w'.gone, None, 0)
  {
  }

  /** Or a new one. */
  lemma FlyKeeps(w: World, key: Key, own: bool, signal: Option<Signal>, now: int)
    requires Valid(w) && key !in w.flying && (signal.Some? ==> signal.value !in w.gone)
    ensures Valid(Join(Fly(w, key, own, now), |w.flights|, signal))
  {
    assert forall r :: 0 <= r < |w.readers| ==> w.readers[r].flight < |w.flights|;
    hide ReadersCounted, PageCounted, StopRight, Staying, Unanswered, AllLeftEarly, Join, Valid, Registered,
         MemoryRight, FatesRight;
    assert Aligned(w) && FatesRight(w.flights, w.readers, w.gone, None, 0) by { ValidIs(w); }
    var w1 := Fly(w, key, own, now);
    FlyCounts(w, key, own, now);
    FlyRegisters(w, key, own, now);
    forall g | 0 <= g < |w1.flights| && g != |w.flights| ensures StopRight(w1.flights[g], w1.readers, g) {
      assert w1.flights[g] == w.flights[g];
    }
    JoinKeeps(w1, |w.flights|, signal);
  }

  lemma ValidIs(w: World)
    requires Valid(w)
    ensures Aligned(w) && FatesRight(w.flights, w.readers, w.gone, None, 0)
  {
  }

  lemma FlyRegisters(w: World, key: Key, own: bool, now: int)
    requires Registered(w.flying, w.flights) && MemoryRight(w.asked, w.flights)
    requires FatesRight(w.flights, w.readers, w.gone, None, 0) && key !in w.flying
    requires forall r :: 0 <= r < |w.readers| ==> w.readers[r].flight < |w.flights|
    ensures var w1 := Fly(w, key, own, now);
            Registered(w1.flying, w1.flights) && MemoryRight(w1.asked, w1.flights) && FatesRight(w1.flights,
                w1.readers, w1.gone, None, 0)
  {
  }

  lemma ReadKeeps(w: World, key: Key, own: bool, signal: Option<Signal>, maxAge: Option<int>, now: int)
    requires Valid(w)
    ensures Valid(OnRead(w, key, own, signal, maxAge, now))
  {
    if !(Remembered(w, key, maxAge, now) || (signal.Some? && signal.value in w.gone)) {
      if key in w.flying {
        JoinKeeps(w, w.flying[key], signal);
      } else {
        hide Valid, Join;
        FlyKeeps(w, key, own, signal, now);
      }
    }
  }

  // ----- a reader leaves

  lemma LeaveCounts(w: World, r: nat)
    requires Aligned(w) && r < |w.readers| && w.readers[r].fate.Waiting?
    ensures var w' := Leave(w, r);
            && Registered(w'.flying, w'.flights) && ReadersCounted(w'.flights, w'.readers)
            && PageCounted(w'.pageReads, w'.idle, w'.flights) && MemoryRight(w'.asked, w'.flights)
  {
    hide Staying, Unanswered, StoppedRight;
    var w', f := Leave(w, r), w.readers[r].flight;
    UnansweredSet(w.flights, f, w'.flights[f]);
    forall g | 0 <= g < |w'.flights| ensures w'.flights[g].readers == Staying(w'.readers, g) {
      StayingSet(w.readers, r, w'.readers[r], g);
    }
  }

  /** The request is stopped exactly when the reader was the last there. */
  lemma LeaveStops(w: World, r: nat)
    requires Aligned(w) && r < |w.readers| && w.readers[r].fate.Waiting?
    ensures var w' := Leave(w, r); StoppedRight(w'.flights, w'.readers)
  {
    var w', f := Leave(w, r), w.readers[r].flight;
    LeaveCounts(w, r);
    SomeStays(w'.readers, f);
    assert StopRight(w.flights[f], w.readers, f);
    assert w'.flights[f].readers == Staying(w'.readers, f);
    hide Staying, Registered, MemoryRight, PageCounted, ReadersCounted;
    assert !w.flights[f].stopped;
    assert w.flights[f].InAir() ==> w.flights[f].key in w.flying && w.flying[w.flights[f].key] == f by {
      RegisteredAt(w.flying, w.flights, f);
    }
    LastLeaves(w.flights[f], w'.flights[f], w.readers, w'.readers, r, f);
    forall g | 0 <= g < |w'.flights| ensures StopRight(w'.flights[g], w'.readers, g) {
      if g != f {
        LeftEarlySet(w.readers, r, w'.readers[r], g);
        assert StopRight(w.flights[g], w.readers, g);
      }
    }
  }

  lemma RegisteredAt(flying: map<Key, FlightId>, flights: seq<Flight>, f: FlightId)
    requires Registered(flying, flights) && f < |flights|
    ensures flights[f].InAir() <==> flights[f].key in flying && flying[flights[f].key] == f
  {
  }

  lemma LastLeaves(x: Flight, x': Flight, readers: seq<Reader>, readers': seq<Reader>, r: nat, f: FlightId)
    requires r < |readers| && readers[r].flight == f && readers[r].fate.Waiting? && StopRight(x, readers, f)
    requires !x.stopped
    requires readers' == readers[r := readers[r].(fate := Left(x.answer.None?))]
    requires x'.readers == x.readers - 1 && x'.answer == x.answer && (x'.stopped <==> x'.readers == 0 && x.InAir())
    requires x'.readers >= 0
    requires (x'.readers > 0 <==> exists q :: 0 <= q < |readers'| && readers'[q].flight == f && !readers'[q].fate.Left?)
    ensures StopRight(x', readers', f)
  {
    assert readers'[r].flight == f;
    if x.answer.Some? {
      assert readers'[r].fate == Left(false);
    } else if x'.readers == 0 {
      forall q | 0 <= q < |readers'| && readers'[q].flight == f ensures readers'[q].fate == Left(true) {
        assert readers'[q].fate.Left?;
        assert q != r ==> readers'[q] == readers[q];
      }
    }
  }

  /** A signal fires: each reader on it leaves. */
  lemma {:induction false} AbortKeeps(w: World, s: Signal, n: nat)
    requires Aligned(w) && FatesRight(w.flights, w.readers, w.gone, Some(s), 0) && s in w.gone && n <= |w.readers|
    ensures var w' := LeaveAll(w, s, n);
            Aligned(w') && FatesRight(w'.flights, w'.readers, w'.gone, Some(s), n) && w'.gone == w.gone
  {
    hide Registered, ReadersCounted, PageCounted, StoppedRight, MemoryRight, Leave, FatesRight;
    if n > 0 {
      AbortKeeps(w, s, n - 1);
      var w1 := LeaveAll(w, s, n - 1);
      if Listens(w1, n - 1, s) {
        LeaveCounts(w1, n - 1);
        LeaveStops(w1, n - 1);
        LeaveFates(w1, s, n - 1);
      } else {
        PassesBy(w1, s, n - 1);
      }
    }
  }

  lemma PassesBy(w: World, s: Signal, r: nat)
    requires FatesRight(w.flights, w.readers, w.gone, Some(s), r) && r < |w.readers| && !Listens(w, r, s)
    ensures FatesRight(w.flights, w.readers, w.gone, Some(s), r + 1)
  {
  }

  lemma LeaveFates(w: World, s: Signal, r: nat)
    requires FatesRight(w.flights, w.readers, w.gone, Some(s), r) && s in w.gone && r < |w.readers| && Listens(w, r, s)
    ensures var w' := Leave(w, r); FatesRight(w'.flights, w'.readers, w'.gone, Some(s), r + 1) && w'.gone == w.gone
  {
  }

  // ----- the answer comes, and reaches each reader

  lemma AnswerKeeps(w: World, f: FlightId, a: Answer)
    requires Valid(w) && f < |w.flights| && w.flights[f].answer.None?
    ensures Valid(OnAnswer(w, f, a))
  {
    hide ReadersCounted, StoppedRight, PageCounted, Registered, MemoryRight, FatesRight;
    AnswerStops(w, f, a);
    AnswerCounts(w, f, a);
    AnswerRegisters(w, f, a);
  }

  lemma AnswerCounts(w: World, f: FlightId, a: Answer)
    requires ReadersCounted(w.flights, w.readers) && PageCounted(w.pageReads, w.idle, w.flights) && f < |w.flights|
    requires w.flights[f].answer.None?
    ensures var w' := OnAnswer(w, f, a); ReadersCounted(w'.flights, w'.readers) && PageCounted(w'.pageReads, w'.idle,
        w'.flights)
  {
    hide Staying, Unanswered;
    UnansweredSet(w.flights, f, OnAnswer(w, f, a).flights[f]);
  }

  lemma AnswerRegisters(w: World, f: FlightId, a: Answer)
    requires Registered(w.flying, w.flights) && MemoryRight(w.asked, w.flights)
    requires FatesRight(w.flights, w.readers, w.gone, None, 0)
    requires f < |w.flights| && w.flights[f].answer.None?
    ensures var w' := OnAnswer(w, f, a);
            Registered(w'.flying, w'.flights) && MemoryRight(w'.asked, w'.flights) && FatesRight(w'.flights,
                w'.readers, w'.gone, None, 0)
  {
  }

  lemma AnswerStops(w: World, f: FlightId, a: Answer)
    requires StoppedRight(w.flights, w.readers) && f < |w.flights|
    ensures var w' := OnAnswer(w, f, a); StoppedRight(w'.flights, w'.readers)
  {
    var w' := OnAnswer(w, f, a);
    hide AllLeftEarly;
    forall g | 0 <= g < |w'.flights| ensures StopRight(w'.flights[g], w'.readers, g) {
      assert StopRight(w.flights[g], w.readers, g);
    }
  }

  lemma SettleKeeps(w: World, r: nat)
    requires Valid(w) && CanSettle(w, r)
    ensures Valid(OnSettle(w, r))
  {
    hide Staying, Unanswered, Registered, MemoryRight, PageCounted;
    var w', f := OnSettle(w, r), w.readers[r].flight;
    forall g | 0 <= g < |w'.flights| ensures w'.flights[g].readers == Staying(w'.readers, g) {
      StayingSet(w.readers, r, w'.readers[r], g);
    }
    forall g | 0 <= g < |w'.flights| ensures StopRight(w'.flights[g], w'.readers, g) {
      assert StopRight(w.flights[g], w.readers, g);
      if g == f {
        assert w.readers[r].flight == f && w'.readers[r].flight == f;
      } else {
        LeftEarlySet(w.readers, r, w'.readers[r], g);
      }
    }
  }

  // ----- every event, and every run

  lemma StepKeeps(w: World, e: Event)
    requires Valid(w)
    ensures Valid(Step(w, e))
  {
    match e
    case Read(key, own, signal, maxAge, now) => ReadKeeps(w, key, own, signal, maxAge, now);
    case Abort(s) => AbortAllKeeps(w, s);
    case Answered(f, a) => if f < |w.flights| && w.flights[f].answer.None? { AnswerKeeps(w, f, a); }
    case Settled(r) => if CanSettle(w, r) { SettleKeeps(w, r); }
    case WhenIdle(waiter) => { hide Unanswered, Staying; }
    case AskAgain(prefix) => { hide Unanswered, Staying; }
  }

  lemma AbortAllKeeps(w: World, s: Signal)
    requires Valid(w)
    ensures Valid(OnAbort(w, s))
  {
    hide Registered, ReadersCounted, PageCounted, StoppedRight, MemoryRight, Leave;
    if s !in w.gone {
      AbortKeeps(w.(gone := w.gone + {s}), s, |w.readers|);
    }
  }

  /** Under every interleaving. */
  lemma {:induction false} RunsAreValid(es: seq<Event>)
    ensures Valid(Run(OPENED, es))
  {
    hide Valid, Step;
    if es == [] {
      OpensValid();
    } else {
      RunsAreValid(es[..|es| - 1]);
      StepKeeps(Run(OPENED, es[..|es| - 1]), es[|es| - 1]);
    }
  }

  lemma OpensValid()
    ensures Valid(OPENED)
  {
  }

  // ----- what that means

  /** One request for one question, however many ask: at any point of any run no two requests in
      the air are of one question, and each has a reader waiting for it. */
  lemma SingleFlight(es: seq<Event>)
    ensures var w := Run(OPENED, es);
            && (forall f, g :: 0 <= f < g < |w.flights| && w.flights[f].InAir() && w.flights[g].InAir() ==>
                  w.flights[f].key != w.flights[g].key)
            && (forall f :: 0 <= f < |w.flights| && w.flights[f].InAir() ==>
                  exists r :: 0 <= r < |w.readers| && w.readers[r].flight == f && !w.readers[r].fate.Left?)
  {
    hide Staying, Run, Unanswered, MemoryRight, FatesRight;
    RunsAreValid(es);
    var w := Run(OPENED, es);
    forall f | 0 <= f < |w.flights| && w.flights[f].InAir()
      ensures exists r :: 0 <= r < |w.readers| && w.readers[r].flight == f && !w.readers[r].fate.Left?
    {
      SomeStays(w.readers, f);
      assert StopRight(w.flights[f], w.readers, f);
    }
  }

  /** A request is stopped if and only if each of its readers gave a signal that fired, and left
      before the answer. */
  lemma StoppedIff(es: seq<Event>, f: FlightId)
    requires f < |Run(OPENED, es).flights|
    ensures var w := Run(OPENED, es);
            w.flights[f].stopped <==>
            forall r :: 0 <= r < |w.readers| && w.readers[r].flight == f ==>
              w.readers[r].fate == Left(true) && w.readers[r].signal.Some? && w.readers[r].signal.value in w.gone
  {
    hide Run, Registered, ReadersCounted, MemoryRight, PageCounted;
    RunsAreValid(es);
    var w := Run(OPENED, es);
    assert StopRight(w.flights[f], w.readers, f);
  }

  /** The page's count is of its own requests unanswered, and while it is zero no one waits for it
      to be: waiters go on exactly when it falls to zero. */
  lemma IdleAtZero(es: seq<Event>, e: Event)
    ensures var w, w' := Run(OPENED, es), Step(Run(OPENED, es), e);
            && w'.pageReads == Unanswered(w'.flights)
            && (w'.pageReads == 0 ==> w'.idle == [])
            && (w'.pageReads > 0 ==> w.idle <= w'.idle)
  {
    hide Run, Registered, ReadersCounted, MemoryRight, StoppedRight, Unanswered, FatesRight, Leave, Join;
    RunsAreValid(es);
    var w := Run(OPENED, es);
    StepKeeps(w, e);
    if e.Abort? {
      LeavesWaiters(w.(gone := w.gone + {e.of}), e.of, |w.readers|);
    } else if e.Read? {
      JoinsWaiters(w, e.key, e.own, e.signal, e.maxAge, e.now);
    } else if e.Answered? && e.flight < |w.flights| {
      AnswersWaiters(w, e.flight, e.answer);
    }
  }

  lemma JoinsWaiters(w: World, key: Key, own: bool, signal: Option<Signal>, maxAge: Option<int>, now: int)
    ensures OnRead(w, key, own, signal, maxAge, now).idle == w.idle
  {
  }

  lemma AnswersWaiters(w: World, f: FlightId, a: Answer)
    requires f < |w.flights|
    ensures var w' := OnAnswer(w, f, a); w'.idle == w.idle || (w'.pageReads == 0 && w'.idle == [])
  {
  }

  lemma {:induction false} LeavesWaiters(w: World, s: Signal, n: nat)
    ensures var w' := LeaveAll(w, s, n); w'.idle == w.idle && w'.pageReads == w.pageReads
  {
    if n > 0 {
      LeavesWaiters(w, s, n - 1);
    }
  }

  /** What an event does to the flights there are: questions stay, an answer comes to the one it is
      for, and only a signal stops one. */
  ghost predicate FlightsStay(w: World, w': World, e: Event) {
    && |w.flights| <= |w'.flights|
    && forall f :: 0 <= f < |w.flights| ==>
         && w'.flights[f].key == w.flights[f].key
         && (w'.flights[f].answer == w.flights[f].answer || (e.Answered? && e.flight == f))
         && (w'.flights[f].stopped == w.flights[f].stopped || e.Abort?)
  }

  lemma {:induction false} LeavesFlights(w: World, s: Signal, n: nat)
    ensures FlightsStay(w, LeaveAll(w, s, n), Abort(s))
  {
    if n > 0 {
      LeavesFlights(w, s, n - 1);
    }
  }

  lemma StepFlights(w: World, e: Event)
    ensures FlightsStay(w, Step(w, e), e)
  {
    if e.Abort? && e.of !in w.gone {
      LeavesFlights(w.(gone := w.gone + {e.of}), e.of, |w.readers|);
    }
  }

  /** In every run the request registered for a question stays registered, whatever answers come to
      others and whoever leaves others, until it is itself answered, or stopped with none of its own
      readers staying. So a late answer, or a late leaver, never removes a newer request. */
  lemma NewerStays(es: seq<Event>, e: Event, k: Key)
    requires k in Run(OPENED, es).flying
    ensures var w, w' := Run(OPENED, es), Step(Run(OPENED, es), e);
            var g := w.flying[k];
            && g < |w'.flights|
            && ((k in w'.flying && w'.flying[k] == g)
                || (e.Answered? && e.flight == g)
                || (e.Abort? && w'.flights[g].stopped && AllLeftEarly(w'.readers, g)))
  {
    hide Run, Step, ReadersCounted, PageCounted, MemoryRight, FatesRight, AllLeftEarly;
    var w := Run(OPENED, es);
    RunsAreValid(es);
    StepKeeps(w, e);
    StepFlights(w, e);
    var w', g := Step(w, e), w.flying[k];
    assert StopRight(w'.flights[g], w'.readers, g);
    if w'.flights[g].InAir() {
      RegisteredAt(w'.flying, w'.flights, g);
    }
  }

  /** A new request goes out exactly when the question is neither remembered nor in the air, and
      its asker has not gone. */
  lemma AsksOnce(es: seq<Event>, key: Key, own: bool, signal: Option<Signal>, maxAge: Option<int>, now: int)
    ensures var w := Run(OPENED, es);
            var w' := OnRead(w, key, own, signal, maxAge, now);
            |w'.flights| == |w.flights|
            + if !Remembered(w, key, maxAge, now) && !(signal.Some? && signal.value in w.gone)
                 && !(exists f :: 0 <= f < |w.flights| && w.flights[f].key == key && w.flights[f].InAir()) then 1 else 0
  {
    hide Run, ReadersCounted, MemoryRight, PageCounted, StoppedRight, FatesRight;
    RunsAreValid(es);
    var w := Run(OPENED, es);
    if key in w.flying {
      assert w.flights[w.flying[key]].InAir();
    } else {
      forall f | 0 <= f < |w.flights| && w.flights[f].key == key ensures !w.flights[f].InAir() {
        RegisteredAt(w.flying, w.flights, f);
      }
    }
  }

  /** What memory gives was answered, whole, to that question; a failure is never given. */
  lemma MemoryIsWhole(es: seq<Event>, key: Key, maxAge: Option<int>, now: int)
    requires Remembered(Run(OPENED, es), key, maxAge, now)
    ensures var w := Run(OPENED, es);
            && w.asked[key].flight < |w.flights| && !AskedEachTime(key.route)
            && var f := w.flights[w.asked[key].flight];
               f.key == key && f.answer.Some? && f.answer.value.Kept() && (maxAge.Some? ==> now - f.at < maxAge.value)
  {
    hide Run, ReadersCounted, Registered, PageCounted, StoppedRight, FatesRight;
    RunsAreValid(es);
  }

  lemma FliesWhere(w: World, key: Key)
    requires Valid(w)
    ensures key in w.flying ==> w.flying[key] < |w.flights| && w.flights[w.flying[key]].key == key
  {
  }

  // ----- the page's own state

  class Page {
    var asked: map<Key, Memory>
    var flying: map<Key, FlightId>
    var flights: seq<Flight>
    var readers: seq<Reader>
    var pageReads: int
    var idle: seq<nat>
    var gone: set<Signal>

    ghost function View(): World
      reads this
    {
      World(asked, flying, flights, readers, pageReads, idle, gone)
    }

    constructor ()
      ensures View() == OPENED
    {
      asked, flying, flights, readers, pageReads, idle, gone := map[], map[], [], [], 0, [], {};
    }

    /** Whether there is nothing to wait for. */
    method WhenIdle(waiter: nat) returns (now: bool)
      modifies this`idle
      ensures View() == OnWhenIdle(old(View()), waiter) && now == (pageReads == 0)
    {
      now := pageReads == 0;
      if !now {
        idle := idle + [waiter];
      }
    }

    method Read(key: Key, own: bool, signal: Option<Signal>, maxAge: Option<int>, now: int) returns (reply: Reply)
      requires Valid(View())
      modifies this
      ensures View() == OnRead(old(View()), key, own, signal, maxAge, now) && Valid(View())
      ensures match reply
              case Held(f) => Remembered(old(View()), key, maxAge, now) && f == old(asked)[key].flight
              case Aborted => signal.Some? && signal.value in gone
              case Waits(r) =>
                && r == |old(readers)| && r < |readers|
                && readers[r].flight < |flights| && flights[readers[r].flight].key == key
    {
      hide Valid, Fly, Join;
      ReadKeeps(View(), key, own, signal, maxAge, now);
      FliesWhere(View(), key);
      if !AskedEachTime(key.route) && key in asked && (maxAge.None? || now - asked[key].at < maxAge.value) {
        return Held(asked[key].flight);
      }
      if signal.Some? && signal.value in gone {
        return Aborted;
      }
      if key !in flying {
        Send(key, own, now);
      }
      reply := Attend(flying[key], signal);
    }

    /** The request goes out, and is the one in the air for its question. */
    method Send(key: Key, own: bool, now: int)
      modifies this
      ensures View() == Fly(old(View()), key, own, now) && key in flying && flying[key] == |old(flights)|
      ensures |flights| == |old(flights)| + 1 && flights[|old(flights)|].key == key && readers == old(readers)
    {
      if own {
        pageReads := pageReads + 1;
      }
      flying := flying[key := |flights|];
      flights := flights + [Flight(key, now, own, 0, false, None)];
    }

    method Attend(f: FlightId, signal: Option<Signal>) returns (reply: Reply)
      requires f < |flights|
      modifies this`flights, this`readers
      ensures View() == Join(old(View()), f, signal) && reply == Waits(|old(readers)|)
      ensures |readers| == |old(readers)| + 1 && readers[|old(readers)|].flight == f && |flights| == |old(flights)|
      ensures flights[f].key == old(flights)[f].key
    {
      flights := flights[f := flights[f].(readers := flights[f].readers + 1)];
      readers := readers + [Reader(f, signal, Waiting)];
      return Waits(|readers| - 1);
    }

    /** A reader's signal fired. */
    method Gone(r: nat)
      requires r < |readers| && readers[r].flight < |flights|
      modifies this`readers, this`flights, this`flying
      ensures View() == Leave(old(View()), r) && |readers| == |old(readers)|
    {
      var f := readers[r].flight;
      readers := readers[r := readers[r].(fate := Left(flights[f].answer.None?))];
      flights := flights[f := flights[f].(readers := flights[f].readers - 1)];
      if flights[f].readers == 0 && flights[f].key in flying && flying[flights[f].key] == f {
        flying := flying - {flights[f].key};
        flights := flights[f := flights[f].(stopped := true)];
      }
    }

    method Abort(s: Signal)
      requires Valid(View())
      modifies this
      ensures View() == OnAbort(old(View()), s) && Valid(View())
    {
      hide Leave, Valid;
      AbortAllKeeps(View(), s);
      if s in gone {
        return;
      }
      gone := gone + {s};
      ghost var w := View();
      for r := 0 to |readers|
        invariant |readers| == |w.readers| && View() == LeaveAll(w, s, r)
      {
        ghost var before := View();
        if readers[r].fate.Waiting? && readers[r].signal == Some(s) && readers[r].flight < |flights| {
          Gone(r);
        }
        assert View() == if Listens(before, r, s) then Leave(before, r) else before;
      }
    }

    method Answered(f: FlightId, a: Answer) returns (released: seq<nat>)
      requires Valid(View()) && f < |flights| && flights[f].answer.None?
      modifies this
      ensures View() == OnAnswer(old(View()), f, a) && Valid(View())
      ensures released == if flights[f].own && pageReads == 0 then old(idle) else []
    {
      hide Valid;
      AnswerKeeps(View(), f, a);
      released := [];
      if flights[f].own {
        pageReads := pageReads - 1;
        if pageReads == 0 {
          released, idle := idle, [];
        }
      }
      var key, at := flights[f].key, flights[f].at;
      flights := flights[f := flights[f].(answer := Some(a))];
      if key in flying && flying[key] == f {
        flying := flying - {key};
      }
      if a.ok && a.whole && a.final {
        if !AskedEachTime(key.route) {
          asked := asked[key := Memory(at, f)];
        }
      }
    }

    /** A waiting reader is given the answer. */
    method Settle(r: nat) returns (a: Answer)
      requires Valid(View()) && CanSettle(View(), r)
      modifies this`readers
      ensures View() == OnSettle(old(View()), r) && Valid(View())
      ensures Some(a) == flights[readers[r].flight].answer
    {
      hide Valid;
      SettleKeeps(View(), r);
      a := flights[readers[r].flight].answer.value;
      readers := readers[r := readers[r].(fate := Given)];
    }

    method AskAgain(prefix: Option<string>)
      requires Valid(View())
      modifies this`asked
      ensures View() == OnAskAgain(old(View()), prefix) && Valid(View())
    {
      hide Valid;
      StepKeeps(View(), Event.AskAgain(prefix));
      ghost var was := asked;
      var todo := asked.Keys;
      while todo != {}
        invariant todo <= asked.Keys <= was.Keys
        invariant forall k :: k in was ==> (k in asked <==> k in todo || (prefix.Some? && k.route != prefix.value))
        invariant forall k :: k in asked ==> asked[k] == was[k]
        decreases todo
      {
        var k :| k in todo;
        todo := todo - {k};
        if prefix.None? || k.route == prefix.value {
          asked := asked - {k};
        }
      }
      assert asked == map k | k in was && prefix.Some? && k.route != prefix.value :: was[k];
    }
  }

  // ----- what is remembered

  /** What the page reads over and over: never answered from memory. */
  predicate Live(route: string) {
    || route == "GET /api/symbols/quote" || route == "GET /api/figures/trades" || route == "GET /api/news/symbol"
    || route == "GET /api/filings" || route == "GET /api/agents/log"
  }

  /** The question is answered from memory, with what flight `f` brought. */
  ghost predicate FromMemory(w: World, key: Key, maxAge: Option<int>, now: int, f: FlightId) {
    Remembered(w, key, maxAge, now) && w.asked[key].flight == f
  }

  /** A whole answer is remembered, from then, for as long as its asker takes it; one that failed, or
      names a source it could not read, or is not final, or is of a live route, is not, and leaves
      what was remembered. */
  lemma WholeIsRemembered(w: World, f: FlightId, a: Answer, maxAge: Option<int>, now: int)
    requires f < |w.flights| && w.flights[f].answer.None?
    ensures var w', key, at := Step(w, Answered(f, a)), w.flights[f].key, w.flights[f].at;
            if a.ok && a.whole && a.final && !Live(key.route)
            then FromMemory(w', key, maxAge, now, f) <==> maxAge.None? || now - at < maxAge.value
            else w'.asked == w.asked
  {
  }

  /** A question of a live route is asked each time; none is answered from memory. */
  lemma LiveIsAsked(w: World, key: Key, maxAge: Option<int>, now: int)
    ensures Live(key.route) ==> !Remembered(w, key, maxAge, now)
  {
  }

  /** Asked again, the route's questions are asked of the server, or all of them; what was remembered
      of any other route stays. */
  lemma AskedAgain(w: World, prefix: Option<string>, key: Key, maxAge: Option<int>, now: int)
    ensures var w' := Step(w, AskAgain(prefix));
            && (prefix == None || prefix == Some(key.route) ==> !Remembered(w', key, maxAge, now))
            && (prefix.Some? && prefix.value != key.route ==>
                  (Remembered(w', key, maxAge, now) <==> Remembered(w, key, maxAge, now))
                  && (Remembered(w, key, maxAge, now) ==> w'.asked[key] == w.asked[key]))
  {
  }
}
