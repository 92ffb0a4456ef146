/**
 * The speech queue: one utterance in flight, at most one waiting, and the newest wins. Each method
 * is what runs between two suspensions of the event loop: a call from outside, or the drain loop
 * going on after the utterance in flight settled. Failure handlers run inside the latter and may
 * call `Enqueue`; as the queue is busy then, that is a call just before `Resume`.
 */
module SpeechQueues {
  import opened Basics
  import opened Speech

  datatype Utterance = Utterance(text: string, language: Option<string>)

  datatype Queue = Queue(busy: bool, pending: Option<Utterance>, idleWaiters: seq<nat>)

  /** `Starting` is what is handed to speech at once, if anything. */
  function AfterEnqueue(q: Queue, text: string, language: Option<string>): (Queue, Option<Utterance>) {
    var u := Utterance(Trim(text), language);
    if u.text == "" then (q, None)
    else if q.busy then (q.(pending := Some(u)), None)
    else (q.(busy := true), Some(u))
  }

  /** Whether the promise is already resolved; otherwise the waiter is kept. */
  function AfterWhenIdle(q: Queue, waiter: nat): (Queue, bool) {
    if q.busy then (q.(idleWaiters := q.idleWaiters + [waiter]), false) else (q, true)
  }

  function AfterSettle(q: Queue): (Queue, Option<Utterance>, seq<nat>) {
    if q.pending.Some? then (q.(pending := None), q.pending, []) else (Queue(false, None, []), None, q.idleWaiters)
  }

  class SpeechQueue {
    var busy: bool
    var pending: Option<Utterance>
    var idleWaiters: seq<nat>

    ghost function Value(): Queue
      reads this
    {
      Queue(busy, pending, idleWaiters)
    }

    constructor ()
      ensures Value() == Queue(false, None, [])
    {
      busy, pending, idleWaiters := false, None, [];
    }

    method Enqueue(text: string, language: Option<string>) returns (starting: Option<Utterance>)
      modifies this`busy, this`pending
      ensures (Value(), starting) == AfterEnqueue(old(Value()), text, language)
    {
      var trimmed := Trim(text);
      if |trimmed| == 0 {
        return None;
      }
      var utterance := Utterance(trimmed, language);
      if busy {
        pending := Some(utterance);
        return None;
      }
      busy := true;
      return Some(utterance);
    }

    method WhenIdle(waiter: nat) returns (resolved: bool)
      modifies this`idleWaiters
      ensures (Value(), resolved) == AfterWhenIdle(old(Value()), waiter)
    {
      if !busy {
        return true;
      }
      idleWaiters := idleWaiters + [waiter];
      return false;
    }

    /** The drain loop after one utterance settled: the next one, or the end and whom it wakes. */
    method Resume() returns (next: Option<Utterance>, resolved: seq<nat>)
      modifies this
      ensures (Value(), next, resolved) == AfterSettle(old(Value()))
    {
      next := pending;
      pending := None;
      if next.Some? {
        return next, [];
      }
      busy := false;
      var waiters := idleWaiters;
      idleWaiters := [];
      resolved := [];
      for k := 0 to |waiters|
        invariant resolved == waiters[..k] && !busy && pending == None && idleWaiters == [] && next == None
      {
        resolved := resolved + [waiters[k]];
      }
      assert waiters[..|waiters|] == waiters;
    }
  }

  // ---------- runs ----------

  datatype Call = Enqueue(text: string, language: Option<string>) | WhenIdle(waiter: nat) | Settle

  /**
   * A run: the queue, what is playing, every non-blank utterance asked for, every utterance
   * started, the place of each of those among the former, and the waiters asked and answered.
   */
  datatype History = History(
    queue: Queue,
    playing: Option<Utterance>,
    asked: seq<Utterance>,
    spoken: seq<Utterance>,
    places: seq<nat>,
    waited: seq<nat>,
    resolved: seq<nat>)

  const START: History := History(Queue(false, None, []), None, [], [], [], [], [])

  function Starting(h: History, u: Utterance): History {
    h.(playing := Some(u), spoken := h.spoken + [u], places := h.places + [if h.asked == [] then 0 else |h.asked| - 1])
  }

  /** A settlement happens only while something plays. */
  function Next(h: History, c: Call): History {
    match c
    case Enqueue(text, language) =>
      var (q, start) := AfterEnqueue(h.queue, text, language);
      var asked := if Trim(text) == "" then h.asked else h.asked + [Utterance(Trim(text), language)];
      var h' := h.(queue := q, asked := asked);
      if start.Some? then Starting(h', start.value) else h'
    case WhenIdle(w) =>
      var (q, done) := AfterWhenIdle(h.queue, w);
      h.(queue := q, waited := h.waited + [w], resolved := if done then h.resolved + [w] else h.resolved)
    case Settle =>
      if h.playing.None? then h else
      var (q, next, woken) := AfterSettle(h.queue);
      var h' := h.(queue := q, playing := None, resolved := h.resolved + woken);
      if next.Some? then Starting(h', next.value) else h'
  }

  function Run(calls: seq<Call>): History {
    if calls == [] then START else Next(Run(calls[..|calls| - 1]), calls[|calls| - 1])
  }

  /** The last non-blank request is playing, was played last, or waits; and nothing waits at rest. */
  ghost predicate Sound(h: History) {
    && (h.queue.busy <==> h.playing.Some?)
    && (h.queue.pending.Some? ==> h.queue.busy && h.asked != [] && h.queue.pending.value == h.asked[|h.asked| - 1])
    && (h.playing.Some? ==> h.spoken != [] && h.playing.value == h.spoken[|h.spoken| - 1])
    && (!h.queue.busy ==> h.queue.idleWaiters == [])
  }

  /** Every waiter was answered once or is still kept. */
  ghost predicate Accounted(h: History) {
    multiset(h.waited) == multiset(h.resolved) + multiset(h.queue.idleWaiters)
  }

  /** The utterances spoken are some of those asked for, in order, each once. */
  ghost predicate InOrder(asked: seq<Utterance>, spoken: seq<Utterance>, places: seq<nat>) {
    && |places| == |spoken|
    && (forall k :: 0 <= k < |places| ==> places[k] < |asked| && spoken[k] == asked[places[k]])
    && (forall j, k :: 0 <= j < k < |places| ==> places[j] < places[k])
  }

  /** Unless one waits, the last utterance asked for is the last one spoken. */
  ghost predicate Newest(h: History) {
    && (h.spoken == [] ==> h.asked == [])
    && (h.spoken != [] && |h.places| == |h.spoken| ==>
          if h.queue.pending.None? then h.places[|h.places| - 1] == |h.asked| - 1
          else h.places[|h.places| - 1] < |h.asked| - 1)
  }

  ghost predicate Kept(h: History) {
    Sound(h) && Accounted(h) && InOrder(h.asked, h.spoken, h.places) && Newest(h)
  }

  lemma StartKeepsOrder(asked: seq<Utterance>, spoken: seq<Utterance>, places: seq<nat>)
    requires InOrder(asked, spoken, places) && asked != [] && (places == [] || places[|places| - 1] < |asked| - 1)
    ensures InOrder(asked, spoken + [asked[|asked| - 1]], places + [|asked| - 1])
  {
  }

  lemma AskKeepsOrder(asked: seq<Utterance>, u: Utterance, spoken: seq<Utterance>, places: seq<nat>)
    requires InOrder(asked, spoken, places)
    ensures InOrder(asked + [u], spoken, places) && (places == [] || places[|places| - 1] < |asked|)
  {
  }

  lemma EnqueueKeeps(h: History, text: string, language: Option<string>)
    requires Kept(h)
    ensures Kept(Next(h, Enqueue(text, language)))
  {
    if Trim(text) != "" {
      if h.queue.busy { WaitingKeeps(h, text, language); } else { StartingKeeps(h, text, language); }
      hide Kept, Next;
    }
  }

  lemma WaitingKeeps(h: History, text: string, language: Option<string>)
    requires Kept(h) && h.queue.busy && Trim(text) != ""
    ensures Kept(Next(h, Enqueue(text, language)))
  {
    hide Trim, InOrder;
    AskKeepsOrder(h.asked, Utterance(Trim(text), language), h.spoken, h.places);
    OrderIsLong(h.asked, h.spoken, h.places);
  }

  lemma StartingKeeps(h: History, text: string, language: Option<string>)
    requires Kept(h) && !h.queue.busy && Trim(text) != ""
    ensures Kept(Next(h, Enqueue(text, language)))
  {
    hide Trim, InOrder;
    var u := Utterance(Trim(text), language);
    AskKeepsOrder(h.asked, u, h.spoken, h.places);
    OrderIsLong(h.asked, h.spoken, h.places);
    StartKeepsOrder(h.asked + [u], h.spoken, h.places);
  }

  lemma OrderIsLong(asked: seq<Utterance>, spoken: seq<Utterance>, places: seq<nat>)
    requires InOrder(asked, spoken, places)
    ensures |places| == |spoken|
  {
  }

  lemma SettleKeeps(h: History)
    requires Kept(h)
    ensures Kept(Next(h, Settle))
  {
    assert |h.places| == |h.spoken|;
    if h.playing.Some? && h.queue.pending.Some? {
      StartKeepsOrder(h.asked, h.spoken, h.places);
    }
    hide InOrder;
    assert multiset(h.resolved + h.queue.idleWaiters) == multiset(h.resolved) + multiset(h.queue.idleWaiters);
    assert h.resolved + [] == h.resolved;
  }

  lemma WhenIdleKeeps(h: History, w: nat)
    requires Kept(h)
    ensures Kept(Next(h, WhenIdle(w)))
  {
    hide InOrder;
  }

  lemma {:induction false} RunKeeps(calls: seq<Call>)
    ensures Kept(Run(calls))
    decreases |calls|
  {
    hide Next, Kept;
    if calls == [] {
      assert Kept(START) by { StartIsKept(); }
    } else {
      var h := Run(calls[..|calls| - 1]);
      RunKeeps(calls[..|calls| - 1]);
      match calls[|calls| - 1]
      case Enqueue(text, language) => EnqueueKeeps(h, text, language);
      case WhenIdle(w) => WhenIdleKeeps(h, w);
      case Settle => SettleKeeps(h);
    }
  }

  lemma StartIsKept()
    ensures Kept(START)
  {
  }

  /** A new utterance starts only when none is playing: they never overlap. */
  lemma NeverOverlaps(calls: seq<Call>, c: Call)
    ensures var h, h' := Run(calls), Next(Run(calls), c);
            |h'.spoken| <= |h.spoken| + 1
            && (h'.spoken != h.spoken ==>
                  (h.playing.None? || c.Settle?) && h'.playing == Some(h'.spoken[|h'.spoken| - 1]))
    ensures Run(calls).queue.pending.Some? ==> Run(calls).queue.busy
  {
    hide Run, InOrder, Newest, Trim;
    RunKeeps(calls);
  }

  /** What is spoken is a subsequence of the non-blank requests, and what starts is always the newest of them. */
  lemma SpokenIsInOrder(calls: seq<Call>)
    ensures var h := Run(calls);
            |h.places| == |h.spoken|
            && (forall k :: 0 <= k < |h.spoken| ==> h.places[k] < |h.asked| && h.spoken[k] == h.asked[h.places[k]])
            && (forall j, k :: 0 <= j < k < |h.spoken| ==> h.places[j] < h.places[k])
  {
    hide Run, Sound, Newest;
    RunKeeps(calls);
  }

  lemma LatestWins(calls: seq<Call>, c: Call)
    ensures var h, h' := Run(calls), Next(Run(calls), c);
            h'.spoken != h.spoken ==> h'.asked != [] && h'.spoken == h.spoken + [h'.asked[|h'.asked| - 1]]
  {
    hide Run, InOrder, Newest, Trim;
    RunKeeps(calls);
  }

  /** At rest nothing is owed: the last request was the last one spoken, and every waiter was answered. */
  lemma IdleOwesNothing(calls: seq<Call>)
    requires !Run(calls).queue.busy
    ensures var h := Run(calls);
            && h.playing.None? && h.queue.pending.None?
            && (h.asked != [] ==> h.spoken != [] && h.spoken[|h.spoken| - 1] == h.asked[|h.asked| - 1])
            && multiset(h.waited) == multiset(h.resolved)
  {
    hide Run;
    RunKeeps(calls);
  }

  /** Nobody is told of rest too early: a waiter is answered only by a call that leaves nothing playing or pending. */
  lemma AnsweredOnlyAtRest(calls: seq<Call>, c: Call)
    ensures var h, h' := Run(calls), Next(Run(calls), c);
            h'.resolved != h.resolved ==> !h'.queue.busy && h'.playing.None? && h'.queue.pending.None?
  {
    hide Run, InOrder, Newest, Trim;
    RunKeeps(calls);
    assert Run(calls).resolved + [] == Run(calls).resolved;
  }
}
