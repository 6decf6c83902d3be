/**
 The group-commit queue: submitters, workers that take requests off the queue in batches, and shutdown. Every
 request taken off is answered exactly once, and one that is told the queue has stopped was never taken off.
 */
module Batchers {
  import opened Wrappers

  type Ticket = nat
  type Worker = nat

  /** What a worker has in hand: requests collected for the next commit, or those of a commit not yet answered. */
  datatype Hand = Idle | Collecting(batch: seq<Ticket>) | Committing(owed: seq<Ticket>) | Gone

  datatype Outcome = Waiting | Answered | GaveUp | Stopped

  /** `answers` counts what was sent on each request's one-slot channel; `outcomes` is what each submitter has seen. */
  datatype Queue = Queue(
    capacity: nat,
    maxBatch: nat,
    waiting: seq<Ticket>,
    hands: map<Worker, Hand>,
    answers: map<Ticket, nat>,
    taken: set<Ticket>,
    outcomes: map<Ticket, Outcome>,
    shutdown: bool,
    stopped: bool)

  datatype Step =
    | Enqueue(t: Ticket)
    | Refuse(t: Ticket)
    | GiveUp(t: Ticket)
    | Take(w: Worker)
    | Collect(w: Worker)
    | Commit(w: Worker)
    | Answer(w: Worker, t: Ticket)
    | Shutdown
    | Leave(w: Worker)
    | Close
    | Receive(t: Ticket)
    | ReceiveStop(t: Ticket)

  function Sent(q: Queue, t: Ticket): nat {
    if t in q.answers then q.answers[t] else 0
  }

  predicate Holding(h: Hand, t: Ticket) {
    (h.Collecting? && t in h.batch) || (h.Committing? && t in h.owed)
  }

  function Without(s: seq<Ticket>, t: Ticket): seq<Ticket> {
    if s == [] then [] else if s[0] == t then s[1..] else [s[0]] + Without(s[1..], t)
  }

  /** A submitter may still enqueue after the stop: its two choices are equally ready. */
  predicate Enabled(q: Queue, s: Step) {
    match s
    case Enqueue(t) => t !in q.outcomes && |q.waiting| < q.capacity
    case Refuse(t) => t !in q.outcomes && q.stopped
    case GiveUp(t) => t !in q.outcomes || q.outcomes[t].Waiting?
    case Take(w) => w in q.hands && q.hands[w].Idle? && q.waiting != []
    case Collect(w) =>
      w in q.hands && q.hands[w].Collecting? && q.waiting != [] && |q.hands[w].batch| < q.maxBatch
    case Commit(w) => w in q.hands && q.hands[w].Collecting?
    case Answer(w, t) => w in q.hands && q.hands[w].Committing? && t in q.hands[w].owed
    case Shutdown => true
    case Leave(w) => w in q.hands && q.hands[w].Idle? && q.shutdown && q.waiting == []
    case Close => forall w :: w in q.hands ==> q.hands[w].Gone?
    case Receive(t) => t in q.outcomes && q.outcomes[t].Waiting? && Sent(q, t) > 0
    case ReceiveStop(t) => t in q.outcomes && q.outcomes[t].Waiting? && q.stopped && Sent(q, t) == 0
  }

  function Do(q: Queue, s: Step): Queue
    requires Enabled(q, s)
  {
    match s
    case Enqueue(t) => q.(waiting := q.waiting + [t], outcomes := q.outcomes[t := Waiting])
    case Refuse(t) => q.(outcomes := q.outcomes[t := Stopped])
    case GiveUp(t) => q.(outcomes := q.outcomes[t := GaveUp])
    case Take(w) =>
      q.(waiting := q.waiting[1..], hands := q.hands[w := Collecting([q.waiting[0]])], taken := q.taken + {q.waiting[0]})
    case Collect(w) =>
      q.(waiting := q.waiting[1..], hands := q.hands[w := Collecting(q.hands[w].batch + [q.waiting[0]])],
         taken := q.taken + {q.waiting[0]})
    case Commit(w) => q.(hands := q.hands[w := Committing(q.hands[w].batch)])
    case Answer(w, t) =>
      var owed := Without(q.hands[w].owed, t);
      q.(hands := q.hands[w := if owed == [] then Idle else Committing(owed)], answers := q.answers[t := Sent(q, t) + 1])
    case Shutdown => q.(shutdown := true)
    case Leave(w) => q.(hands := q.hands[w := Gone])
    case Close => q.(stopped := true)
    case Receive(t) => q.(outcomes := q.outcomes[t := Answered])
    case ReceiveStop(t) => q.(outcomes := q.outcomes[t := Stopped])
  }

  // ---- the invariant ----

  predicate Distinct(s: seq<Ticket>) {
    forall i, j :: 0 <= i < j < |s| ==> s[i] != s[j]
  }

  function Held(h: Hand): seq<Ticket> {
    if h.Collecting? then h.batch else if h.Committing? then h.owed else []
  }

  predicate WaitingApart(q: Queue) {
    Distinct(q.waiting) && forall t :: t in q.waiting ==> t in q.outcomes && t !in q.taken
  }

  predicate InOneHand(q: Queue) {
    && (forall w :: w in q.hands ==>
          Distinct(Held(q.hands[w])) && (q.hands[w].Collecting? || q.hands[w].Committing? ==> Held(q.hands[w]) != []))
    && (forall w, t :: w in q.hands && t in Held(q.hands[w]) ==> t in q.taken && Sent(q, t) == 0)
    && (forall v, w :: v in q.hands && w in q.hands && v != w ==> Apart(Held(q.hands[v]), Held(q.hands[w])))
  }

  predicate Apart(a: seq<Ticket>, b: seq<Ticket>) {
    forall t :: t in a ==> t !in b
  }

  predicate InSomeHand(q: Queue, t: Ticket) {
    exists w :: w in q.hands && t in Held(q.hands[w])
  }

  predicate TakenAccounted(q: Queue) {
    && (forall t :: t in q.taken ==> t in q.outcomes && (Sent(q, t) == 1 || InSomeHand(q, t)))
    && (forall t :: t in q.answers ==> q.answers[t] <= 1 && t in q.taken)
  }

  predicate StopIsFinal(q: Queue) {
    && (q.stopped ==> forall w :: w in q.hands ==> q.hands[w].Gone?)
    && (forall t :: t in q.outcomes && q.outcomes[t].Stopped? ==> q.stopped && t !in q.taken)
  }

  /** A request waits, is in one worker's hand, or has been answered once; and never two of these. */
  predicate Invariant(q: Queue) {
    WaitingApart(q) && InOneHand(q) && TakenAccounted(q) && StopIsFinal(q)
  }

  function Start(capacity: nat, maxBatch: nat, workers: set<Worker>): Queue {
    Queue(capacity, maxBatch, [], map w | w in workers :: Idle, map[], {}, map[], false, false)
  }

  lemma StartInvariant(capacity: nat, maxBatch: nat, workers: set<Worker>)
    ensures Invariant(Start(capacity, maxBatch, workers))
  {
  }

  lemma {:induction false} WithoutMembers(s: seq<Ticket>, t: Ticket)
    requires Distinct(s)
    ensures Distinct(Without(s, t)) && forall x :: x in Without(s, t) <==> x in s && x != t
  {
    if s != [] {
      WithoutMembers(s[1..], t);
      var rest := Without(s[1..], t);
      forall i, j | 0 <= i < j < |[s[0]] + rest| && s[0] != t ensures ([s[0]] + rest)[i] != ([s[0]] + rest)[j] {
        if i == 0 {
          assert rest[j - 1] in rest;
        }
      }
      assert forall x :: x in s <==> x == s[0] || x in s[1..];
    }
  }

  lemma TakenFromFront(q: Queue)
    requires Invariant(q) && q.waiting != []
    ensures Distinct(q.waiting[1..]) && q.waiting[0] !in q.waiting[1..]
    ensures forall w :: w in q.hands ==> q.waiting[0] !in Held(q.hands[w])
    ensures Sent(q, q.waiting[0]) == 0 && q.waiting[0] in q.outcomes && q.waiting[0] !in q.taken
  {
    assert q.waiting[0] in q.waiting;
  }

  lemma ReceivingKeeps(q: Queue, t: Ticket, w: Worker, batch: seq<Ticket>, after: Queue)
    requires Invariant(q) && q.waiting != [] && t == q.waiting[0] && w in q.hands
    requires batch == Held(q.hands[w]) + [t] && (q.hands[w].Idle? || q.hands[w].Collecting?)
    requires after == q.(waiting := q.waiting[1..], hands := q.hands[w := Collecting(batch)], taken := q.taken + {t})
    ensures Invariant(after)
  {
    TakenFromFront(q);
    HandsAfter(q, w, Collecting(batch), after);
    assert t in Held(after.hands[w]);
    StillInHand(q, after, {});
  }

  /** Changing one worker's hand, adding at most requests no one held. */
  lemma HandsAfter(q: Queue, w: Worker, h: Hand, after: Queue)
    requires InOneHand(q) && w in q.hands && after.hands == q.hands[w := h]
    requires Distinct(Held(h)) && (h.Collecting? || h.Committing? ==> Held(h) != [])
    requires forall t :: t in Held(h) ==> t in after.taken && Sent(after, t) == 0
    requires forall t :: t in Held(h) ==> t in Held(q.hands[w]) || forall v :: v in q.hands ==> t !in Held(q.hands[v])
    requires forall v, t :: v in q.hands && v != w && t in Held(q.hands[v]) ==> t in after.taken && Sent(after, t) == 0
    ensures InOneHand(after)
  {
    forall u, v | u in after.hands && v in after.hands && u != v ensures Apart(Held(after.hands[u]), Held(after.hands[v])) {
      assert Apart(Held(q.hands[u]), Held(q.hands[v])) && Apart(Held(q.hands[v]), Held(q.hands[u]));
    }
  }

  /** Requests held before are held after, but for those in `let`. */
  lemma StillInHand(q: Queue, after: Queue, let: set<Ticket>)
    requires forall w :: w in q.hands ==> w in after.hands
    requires forall w, t :: w in q.hands && t in Held(q.hands[w]) && t !in let ==> t in Held(after.hands[w])
    ensures forall t :: InSomeHand(q, t) && t !in let ==> InSomeHand(after, t)
  {
    forall t | InSomeHand(q, t) && t !in let ensures InSomeHand(after, t) {
      var v :| v in q.hands && t in Held(q.hands[v]);
      assert t in Held(after.hands[v]);
    }
  }

  lemma AnswerHands(q: Queue, w: Worker, t: Ticket, h: Hand, after: Queue)
    requires InOneHand(q) && w in q.hands && q.hands[w].Committing? && t in q.hands[w].owed
    requires var owed := Without(q.hands[w].owed, t); h == if owed == [] then Idle else Committing(owed)
    requires after == q.(hands := q.hands[w := h], answers := q.answers[t := 1])
    ensures InOneHand(after)
    ensures forall x :: InSomeHand(q, x) && x != t ==> InSomeHand(after, x)
  {
    WithoutMembers(q.hands[w].owed, t);
    OthersKeep(q, w, t);
    forall v, x | v in q.hands && x in Held(q.hands[v]) && x != t ensures x in after.taken && Sent(after, x) == 0 {
      assert Sent(after, x) == Sent(q, x);
    }
    forall x | x in Held(h) ensures x in Held(q.hands[w]) && x != t {
    }
    HandsAfter(q, w, h, after);
    StillInHand(q, after, {t});
  }

  lemma AnsweringKeeps(q: Queue, w: Worker, t: Ticket, after: Queue)
    requires Invariant(q) && Enabled(q, Answer(w, t)) && after == Do(q, Answer(w, t))
    ensures Invariant(after)
  {
    hide Without;
    hide Distinct;
    hide Apart;
    hide InSomeHand;
    assert t in Held(q.hands[w]);
    AnswerHands(q, w, t, after.hands[w], after);
    AnswerAccounted(q, t, after);
  }

  lemma OthersKeep(q: Queue, w: Worker, t: Ticket)
    requires InOneHand(q) && w in q.hands && t in Held(q.hands[w])
    ensures forall v :: v in q.hands && v != w ==> t !in Held(q.hands[v])
  {
    forall v | v in q.hands && v != w ensures t !in Held(q.hands[v]) {
      assert Apart(Held(q.hands[w]), Held(q.hands[v]));
    }
  }

  lemma AnswerAccounted(q: Queue, t: Ticket, after: Queue)
    requires TakenAccounted(q) && t in q.taken && Sent(q, t) == 0
    requires after.taken == q.taken && after.outcomes == q.outcomes && after.answers == q.answers[t := 1]
    requires forall x :: InSomeHand(q, x) && x != t ==> InSomeHand(after, x)
    ensures TakenAccounted(after)
  {
  }

  /** What a submitter does changes neither hands nor answers. */
  lemma SubmitterKeeps(q: Queue, s: Step, after: Queue)
    requires Invariant(q) && Enabled(q, s) && after == Do(q, s)
    requires s.Enqueue? || s.Refuse? || s.GiveUp? || s.Receive? || s.ReceiveStop?
    ensures Invariant(after)
  {
    SubmitterWaits(q, s, after);
    if q.stopped {
      NoOneHolds(q);
    }
    hide WaitingApart;
    hide InOneHand;
    SameHands(q, after);
    hide InSomeHand;
    hide Held;
  }

  lemma SubmitterWaits(q: Queue, s: Step, after: Queue)
    requires WaitingApart(q) && TakenAccounted(q) && Enabled(q, s) && after == Do(q, s)
    requires s.Enqueue? || s.Refuse? || s.GiveUp? || s.Receive? || s.ReceiveStop?
    ensures WaitingApart(after)
  {
  }

  lemma NoOneHolds(q: Queue)
    requires StopIsFinal(q) && q.stopped
    ensures forall t :: !InSomeHand(q, t)
  {
  }

  lemma SameHands(q: Queue, after: Queue)
    requires InOneHand(q) && after.taken == q.taken && after.answers == q.answers && after.hands.Keys == q.hands.Keys
    requires forall w :: w in q.hands ==> Held(after.hands[w]) == Held(q.hands[w])
    requires forall w :: w in q.hands && (after.hands[w].Collecting? || after.hands[w].Committing?) ==> Held(q.hands[w]) != []
    ensures InOneHand(after)
    ensures forall t :: InSomeHand(after, t) == InSomeHand(q, t)
  {
    StillInHand(q, after, {});
    StillInHand(after, q, {});
    forall w | w in after.hands
      ensures Distinct(Held(after.hands[w]))
      ensures after.hands[w].Collecting? || after.hands[w].Committing? ==> Held(after.hands[w]) != []
      ensures forall t :: t in Held(after.hands[w]) ==> t in after.taken && Sent(after, t) == 0
    {
      assert Held(after.hands[w]) == Held(q.hands[w]);
      forall t ensures Sent(after, t) == Sent(q, t) {
      }
    }
    forall u, v | u in after.hands && v in after.hands && u != v ensures Apart(Held(after.hands[u]), Held(after.hands[v])) {
      assert Apart(Held(q.hands[u]), Held(q.hands[v]));
    }
  }

  /** Starting a commit, leaving and closing keep what every worker holds. */
  lemma ControlKeeps(q: Queue, s: Step, after: Queue)
    requires Invariant(q) && Enabled(q, s) && after == Do(q, s)
    requires s.Commit? || s.Shutdown? || s.Leave? || s.Close?
    ensures Invariant(after)
  {
    hide InOneHand;
    hide InSomeHand;
    hide Held;
    ControlHands(q, s, after);
  }

  lemma ControlHands(q: Queue, s: Step, after: Queue)
    requires InOneHand(q) && Enabled(q, s) && after == Do(q, s)
    requires s.Commit? || s.Shutdown? || s.Leave? || s.Close?
    ensures InOneHand(after)
    ensures forall t :: InSomeHand(after, t) == InSomeHand(q, t)
  {
    hide Apart;
    hide Distinct;
    SameHands(q, after);
  }

  lemma DoKeeps(q: Queue, s: Step)
    requires Invariant(q) && Enabled(q, s)
    ensures Invariant(Do(q, s))
  {
    hide Invariant;
    match s
    case Take(w) => ReceivingKeeps(q, q.waiting[0], w, [q.waiting[0]], Do(q, s));
    case Collect(w) => ReceivingKeeps(q, q.waiting[0], w, q.hands[w].batch + [q.waiting[0]], Do(q, s));
    case Answer(w, t) => AnsweringKeeps(q, w, t, Do(q, s));
    case Commit(_) => ControlKeeps(q, s, Do(q, s));
    case Shutdown => ControlKeeps(q, s, Do(q, s));
    case Leave(_) => ControlKeeps(q, s, Do(q, s));
    case Close => ControlKeeps(q, s, Do(q, s));
    case _ => SubmitterKeeps(q, s, Do(q, s));
  }

  // ---- runs ----

  ghost predicate Run(trace: seq<Queue>, steps: seq<Step>) {
    && |trace| == |steps| + 1
    && (exists capacity: nat, maxBatch: nat, workers: set<Worker> :: trace[0] == Start(capacity, maxBatch, workers))
    && forall i :: 0 <= i < |steps| ==> Enabled(trace[i], steps[i]) && trace[i + 1] == Do(trace[i], steps[i])
  }

  lemma {:induction false} RunKeeps(trace: seq<Queue>, steps: seq<Step>, n: nat)
    requires Run(trace, steps) && n < |trace|
    ensures Invariant(trace[n])
  {
    if n == 0 {
      var capacity: nat, maxBatch: nat, workers: set<Worker> :| trace[0] == Start(capacity, maxBatch, workers);
      StartInvariant(capacity, maxBatch, workers);
    } else {
      RunKeeps(trace, steps, n - 1);
      DoKeeps(trace[n - 1], steps[n - 1]);
    }
  }

  lemma StopStays(q: Queue, s: Step, t: Ticket)
    requires Enabled(q, s)
    ensures q.stopped ==> Do(q, s).stopped
    ensures t in q.outcomes && q.outcomes[t].Stopped? ==> t in Do(q, s).outcomes && Do(q, s).outcomes[t].Stopped?
  {
  }

  lemma {:induction false} NoReturn(trace: seq<Queue>, steps: seq<Step>, m: nat, n: nat, t: Ticket)
    requires Run(trace, steps) && m <= n < |trace|
    ensures trace[m].stopped ==> trace[n].stopped
    ensures t in trace[m].outcomes && trace[m].outcomes[t].Stopped? ==> t in trace[n].outcomes && trace[n].outcomes[t].Stopped?
    decreases n
  {
    hide Enabled;
    hide Do;
    if m < n {
      NoReturn(trace, steps, m, n - 1, t);
      StopStays(trace[n - 1], steps[n - 1], t);
    }
  }

  /** A submit told that the queue has stopped was never taken off it, then or later, and never answered. */
  lemma StoppedWasNeverTaken(trace: seq<Queue>, steps: seq<Step>, m: nat, n: nat, t: Ticket)
    requires Run(trace, steps) && m <= n < |trace|
    requires t in trace[m].outcomes && trace[m].outcomes[t].Stopped?
    ensures t !in trace[n].taken && Sent(trace[n], t) == 0
  {
    NoReturn(trace, steps, m, n, t);
    RunKeeps(trace, steps, n);
  }

  /** No channel is sent to twice, so with its one slot no send ever blocks. */
  lemma NeverBlocks(trace: seq<Queue>, steps: seq<Step>, n: nat, w: Worker, t: Ticket)
    requires Run(trace, steps) && n < |trace| && Enabled(trace[n], Answer(w, t))
    ensures Sent(trace[n], t) == 0 && Sent(Do(trace[n], Answer(w, t)), t) == 1
  {
    RunKeeps(trace, steps, n);
    assert t in Held(trace[n].hands[w]);
  }

  /** Whatever was taken off has been answered exactly once, or is in the hand of a worker that still owes the answer. */
  lemma TakenIsAnsweredOnce(trace: seq<Queue>, steps: seq<Step>, n: nat, t: Ticket)
    requires Run(trace, steps) && n < |trace| && t in trace[n].taken
    ensures Sent(trace[n], t) <= 1
    ensures Sent(trace[n], t) == 0 <==> InSomeHand(trace[n], t)
    ensures trace[n].stopped ==> Sent(trace[n], t) == 1
  {
    RunKeeps(trace, steps, n);
  }

  // ---- the commit of one batch ----

  datatype Reply = Cancelled | Failed(code: nat) | Done(result: nat)

  type Channels = map<Ticket, seq<Reply>>

  function On(sends: Channels, t: Ticket): seq<Reply> {
    if t in sends then sends[t] else []
  }

  /** What happens to requests in a commit: found given up, or run through the database as a group. */
  datatype Event =
    | GivenUp(t: Ticket)
    | Ran(members: seq<Ticket>, failure: Option<nat>, results: seq<nat>)

  predicate Involves(e: Event, t: Ticket) {
    if e.GivenUp? then e.t == t else t in e.members
  }

  predicate WellRun(e: Event) {
    e.Ran? ==> Distinct(e.members) && |e.results| == |e.members|
  }

  function Position(s: seq<Ticket>, t: Ticket): (i: nat)
    requires t in s
    ensures i < |s| && s[i] == t
  {
    if s[0] == t then 0 else 1 + Position(s[1..], t)
  }

  /** The answer an event has for a request: its own place among the group's results, or the group's failure. */
  function AnswerOf(e: Event, t: Ticket): Reply
    requires Involves(e, t) && WellRun(e)
  {
    match e
    case GivenUp(_) => Cancelled
    case Ran(members, failure, results) =>
      if failure.Some? then Failed(failure.value) else Done(results[Position(members, t)])
  }

  /** The last event of a log that involves a request. */
  function LastOf(log: seq<Event>, t: Ticket): Option<Event> {
    if log == [] then None
    else if Involves(log[|log| - 1], t) then Some(log[|log| - 1])
    else LastOf(log[..|log| - 1], t)
  }

  /**
   One more reply went to each of `ts`, and none to anyone else: the answer of the last event it was involved in,
   and a failure only if it then ran alone. No one else was involved.
   */
  ghost predicate Replied(before: Channels, after: Channels, ts: seq<Ticket>, log: seq<Event>) {
    && (forall e :: e in log ==> WellRun(e) && forall t :: Involves(e, t) ==> t in ts)
    && (forall t :: t in ts ==> LastOf(log, t).Some? && RepliedFrom(before, after, t, LastOf(log, t).value))
    && (forall t :: t !in ts ==> On(after, t) == On(before, t))
  }

  ghost predicate RepliedFrom(before: Channels, after: Channels, t: Ticket, e: Event) {
    && Involves(e, t) && WellRun(e)
    && On(after, t) == On(before, t) + [AnswerOf(e, t)]
    && (AnswerOf(e, t).Failed? ==> e.members == [t])
  }

  lemma {:induction false} LastOfAppend(a: seq<Event>, b: seq<Event>, t: Ticket)
    ensures LastOf(a + b, t) == if LastOf(b, t).Some? then LastOf(b, t) else LastOf(a, t)
    ensures LastOf(b, t).None? <==> forall e :: e in b ==> !Involves(e, t)
  {
    if b == [] {
      assert a + b == a;
    } else {
      var init := b[..|b| - 1];
      LastOfAppend(a, init, t);
      assert (a + b)[..|a + b| - 1] == a + init && b == init + [b[|b| - 1]];
    }
  }

  lemma RepliedThen(a: Channels, b: Channels, c: Channels, x: seq<Ticket>, y: seq<Ticket>, all: seq<Ticket>,
                    first: seq<Event>, second: seq<Event>)
    requires Replied(a, b, x, first) && Replied(b, c, y, second)
    requires (forall t :: t in x ==> t !in y) && (forall t :: t in all <==> t in x || t in y)
    ensures Replied(a, c, all, first + second)
  {
    hide AnswerOf;
    hide LastOf;
    forall t ensures LastOf(first + second, t) == if LastOf(second, t).Some? then LastOf(second, t) else LastOf(first, t) {
      LastOfAppend(first, second, t);
    }
    forall t | t in x ensures LastOf(second, t).None? {
      LastOfAppend(first, second, t);
    }
  }

  /** The commit loop, over the channels its requests are answered on. */
  class Committer {
    var sends: Channels
    ghost var log: seq<Event>

    constructor ()
      ensures sends == map[] && log == []
    {
      sends, log := map[], [];
    }

    method Send(t: Ticket, r: Reply)
      modifies this`sends
      ensures On(sends, t) == On(old(sends), t) + [r]
      ensures forall u :: u != t ==> On(sends, u) == On(old(sends), u)
    {
      sends := sends[t := On(sends, t) + [r]];
    }

    /** Whether the submitter has given up by now, which no one but the submitter decides. */
    method HasGivenUp(t: Ticket) returns (r: bool) {
      r := *;
    }

    /** One group through the database: a result for each request, or one failure of the whole group. */
    method RunGroup(ghost members: seq<Ticket>, n: nat) returns (failure: Option<nat>, results: seq<nat>)
      requires |members| == n && Distinct(members)
      modifies this`log
      ensures |results| == n && log == old(log) + [Ran(members, failure, results)]
    {
      failure := *;
      results := [];
      for i := 0 to n
        invariant |results| == i && log == old(log)
      {
        var x: nat := *;
        results := results + [x];
      }
      log := log + [Ran(members, failure, results)];
    }

    /** Answers those given up on, and keeps the live requests at the front of the batch's own array. */
    method Filter(batch: array<Ticket>) returns (live: nat, ghost gone: seq<Ticket>, ghost told: seq<Event>)
      requires Distinct(batch[..])
      modifies this, batch
      ensures live <= batch.Length && Distinct(batch[..live])
      ensures log == old(log) + told && Replied(old(sends), sends, gone, told)
      ensures forall t :: t in gone ==> t !in batch[..live]
      ensures forall t :: t in old(batch[..]) <==> t in gone || t in batch[..live]
    {
      hide Replied;
      ghost var all := batch[..];
      live, gone, told := 0, [], [];
      NoneReplied(sends);
      for i := 0 to batch.Length
        invariant live <= i && batch[i..] == all[i..]
        invariant Distinct(batch[..live]) && log == old(log) + told && Replied(old(sends), sends, gone, told)
        invariant forall t :: t in gone ==> t !in batch[..live]
        invariant forall t :: t in all[..i] <==> t in gone || t in batch[..live]
      {
        var r := batch[i];
        assert r == all[i] && all[..i + 1] == all[..i] + [r] && r !in all[..i];
        var cancelled := HasGivenUp(r);
        if cancelled {
          ghost var mid := sends;
          Send(r, Cancelled);
          ToldOne(mid, sends, r);
          RepliedThen(old(sends), mid, sends, gone, [r], gone + [r], told, [GivenUp(r)]);
          gone, told, log := gone + [r], told + [GivenUp(r)], log + [GivenUp(r)];
        } else {
          ghost var before := batch[..live];
          batch[live] := r;
          live := live + 1;
          assert batch[..live] == before + [r];
        }
      }
      assert all[..batch.Length] == all;
    }

    /** Sends each live request its own result, or the failure. */
    method AnswerAll(batch: array<Ticket>, live: nat, failure: Option<nat>, results: seq<nat>)
      requires 0 < live <= batch.Length && |results| == live && Distinct(batch[..live])
      requires failure.Some? ==> live == 1
      modifies this`sends
      ensures Replied(old(sends), sends, batch[..live], [Ran(batch[..live], failure, results)])
    {
      hide AnsweredUpTo;
      hide Replied;
      ghost var run := Ran(batch[..live], failure, results);
      NoneAnswered(sends, run);
      for i := 0 to live
        invariant AnsweredUpTo(old(sends), sends, run, i)
      {
        ghost var mid := sends;
        Send(batch[i], if failure.Some? then Failed(failure.value) else Done(results[i]));
        OneMoreAnswered(old(sends), mid, sends, run, i);
      }
      AllReplied(old(sends), sends, run);
    }

    /**
     Answers every request of the batch exactly once and no other: those given up on straight away, the rest with
     the group's results, or, when a group of several fails, each through a commit of its own.
     */
    method Commit(batch: array<Ticket>)
      requires Distinct(batch[..])
      modifies this, batch
      ensures |old(log)| <= |log| && log[..|old(log)|] == old(log)
      ensures Replied(old(sends), sends, old(batch[..]), log[|old(log)|..])
      decreases batch.Length
    {
      hide Replied;
      ghost var all := batch[..];
      var live, gone, told := Filter(batch);
      ghost var mid, kept := sends, batch[..live];
      ghost var rest: seq<Event> := [];
      if live != 0 {
        var failure, results := RunGroup(batch[..live], live);
        rest := [Ran(kept, failure, results)];
        if failure.Some? && live > 1 {
          ghost var again := RetryEach(batch, live);
          RetriedAfter(mid, sends, kept, rest[0], again);
          rest := rest + again;
        } else {
          AnswerAll(batch, live, failure, results);
        }
      } else {
        NoneReplied(sends);
      }
      RepliedThen(old(sends), mid, sends, gone, kept, all, told, rest);
      assert log[|old(log)|..] == told + rest;
    }

    /** Commits the live requests one by one. */
    method RetryEach(batch: array<Ticket>, live: nat) returns (ghost again: seq<Event>)
      requires 1 < live <= batch.Length && Distinct(batch[..live])
      modifies this
      ensures log == old(log) + again && Replied(old(sends), sends, batch[..live], again)
      decreases batch.Length, 0
    {
      hide Replied;
      again := [];
      NoneReplied(sends);
      for i := 0 to live
        invariant log == old(log) + again && Replied(old(sends), sends, batch[..i], again)
      {
        ghost var mid, before := sends, log;
        var one := new Ticket[] [batch[i]];
        assert one[..] == [batch[i]] && batch[..i + 1] == batch[..i] + [batch[i]];
        Commit(one);
        assert forall t :: t in batch[..i] ==> t != batch[i];
        RepliedThen(old(sends), mid, sends, batch[..i], [batch[i]], batch[..i + 1], again, log[|before|..]);
        again := again + log[|before|..];
        assert log == before + log[|before|..];
      }
    }
  }

  lemma NoneReplied(sends: Channels)
    ensures Replied(sends, sends, [], [])
  {
  }

  lemma ToldOne(before: Channels, after: Channels, t: Ticket)
    requires On(after, t) == On(before, t) + [Cancelled] && forall u :: u != t ==> On(after, u) == On(before, u)
    ensures Replied(before, after, [t], [GivenUp(t)])
  {
    assert LastOf([GivenUp(t)], t) == Some(GivenUp(t));
  }

  lemma {:induction false} PositionAt(s: seq<Ticket>, i: nat)
    requires Distinct(s) && i < |s|
    ensures Position(s, s[i]) == i
  {
    if i > 0 {
      assert s[0] != s[i];
      PositionAt(s[1..], i - 1);
    }
  }

  /** What a request is sent by the time the first `n` members of a group have been answered. */
  function SentBy(run: Event, n: nat, t: Ticket): seq<Reply>
    requires run.Ran? && WellRun(run) && n <= |run.members|
  {
    if t in run.members[..n] then [AnswerOf(run, t)] else []
  }

  ghost predicate AnsweredUpTo(before: Channels, after: Channels, run: Event, n: nat)
    requires run.Ran? && WellRun(run) && n <= |run.members|
  {
    forall t :: On(after, t) == On(before, t) + SentBy(run, n, t)
  }

  lemma NoneAnswered(sends: Channels, run: Event)
    requires run.Ran? && WellRun(run)
    ensures AnsweredUpTo(sends, sends, run, 0)
  {
  }

  lemma SentNext(run: Event, i: nat, t: Ticket)
    requires run.Ran? && WellRun(run) && i < |run.members|
    ensures SentBy(run, i + 1, t) ==
      if t != run.members[i] then SentBy(run, i, t)
      else [if run.failure.Some? then Failed(run.failure.value) else Done(run.results[i])]
    ensures t == run.members[i] ==> SentBy(run, i, t) == []
  {
    var members := run.members;
    PositionAt(members, i);
    assert members[..i + 1] == members[..i] + [members[i]];
  }

  lemma OneMoreAnswered(before: Channels, mid: Channels, after: Channels, run: Event, i: nat)
    requires run.Ran? && WellRun(run) && i < |run.members| && AnsweredUpTo(before, mid, run, i)
    requires On(after, run.members[i])
      == On(mid, run.members[i]) + [if run.failure.Some? then Failed(run.failure.value) else Done(run.results[i])]
    requires forall t :: t != run.members[i] ==> On(after, t) == On(mid, t)
    ensures AnsweredUpTo(before, after, run, i + 1)
  {
    hide SentBy;
    hide On;
    forall t ensures On(after, t) == On(before, t) + SentBy(run, i + 1, t) {
      SentNext(run, i, t);
      assert On(mid, t) == On(before, t) + SentBy(run, i, t);
    }
  }

  lemma AllReplied(before: Channels, after: Channels, run: Event)
    requires run.Ran? && WellRun(run) && (run.failure.Some? ==> |run.members| == 1)
    requires AnsweredUpTo(before, after, run, |run.members|)
    ensures Replied(before, after, run.members, [run])
  {
    assert run.members[..|run.members|] == run.members;
    forall t | t in run.members ensures LastOf([run], t) == Some(run) && RepliedFrom(before, after, t, run) {
      assert On(after, t) == On(before, t) + SentBy(run, |run.members|, t);
      assert run.failure.Some? ==> run.members == [t];
    }
    forall t | t !in run.members ensures On(after, t) == On(before, t) {
      assert On(after, t) == On(before, t) + SentBy(run, |run.members|, t);
    }
  }

  /** A failed group run that was followed by a commit of each member leaves no trace in the answers. */
  lemma RetriedAfter(before: Channels, after: Channels, members: seq<Ticket>, e: Event, again: seq<Event>)
    requires Replied(before, after, members, again) && e.Ran? && WellRun(e) && e.members == members
    ensures Replied(before, after, members, [e] + again)
  {
    hide AnswerOf;
    hide LastOf;
    forall t | t in members ensures LastOf([e] + again, t) == LastOf(again, t) {
      LastOfAppend([e], again, t);
    }
  }
}
