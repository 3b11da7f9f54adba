/** What the running pipeline owes its queues: who is there to serve them, how soon, and when a loop may park. */
module Service {
  import opened Wrappers
  import opened Types
  import opened FlatEngine
  import opened Pipeline

  // ---------- bounded service ----------

  /** The most steps of its own that a running loop with a queue can take before it takes from that queue. */
  function Distance<T>(l: Loop<T>): nat
  {
    match l.pc
    case Poll | Polled => 3
    case Wait => 2
    case Dequeue => if l.current.Some? then 1 else 0
    case _ => 1
  }

  lemma LoopServes<T>(l: Loop<T>, e: LoopStep)
    requires LoopOk(l) && Can(l, e) && l.running && l.queue != [] && l.pc != Drain
    ensures if e == Take then Distance(Do(l, e)) <= Distance(l) + 1 else Distance(Do(l, e)) < Distance(l)
  {
  }

  /** For k tasks of the processing queue: its own distance, and what the tasks before the k-th still cost. */
  function Patience(p: System, k: nat): nat
    requires 1 <= k <= |p.processing.queue|
  {
    Distance(p.processing) + |p.unposted| + 3 * (k - 1) + |Run(p.engine, p.processing.queue[..k - 1]).md|
  }

  lemma TakeServes(p: System, k: nat)
    requires Alive(p) && Enabled(p, Processing(Take)) && p.processing.running && 1 < k <= |p.processing.queue|
    ensures Patience(Apply(p, Processing(Take)), k - 1) < Patience(p, k)
  {
    hide Step;
    var q, q' := p.processing.queue, p.processing.queue[1..];
    var ran := Step(p.engine, q[0]);
    LoopServes(p.processing, Take);
    assert q[..k - 1][0] == q[0] && q[..k - 1][1..] == q'[..k - 2];
    assert Run(p.engine, q[..k - 1]) == Then(ran, Run(ran.state, q'[..k - 2]));
  }

  lemma OtherServes(p: System, m: Move, k: nat)
    requires Alive(p) && Enabled(p, m) && m != Processing(Take)
    requires p.processing.running && Apply(p, m).processing.running && 1 <= k <= |p.processing.queue|
    ensures var q := Apply(p, m);
            && q.processing.taken == p.processing.taken && p.processing.queue <= q.processing.queue
            && q.processing.queue[..k] == p.processing.queue[..k]
            && Patience(q, k) + (if ThreadOf(m) == ProcessingThread then 1 else 0) <= Patience(p, k)
  {
    hide Step, Run;
    if m.Processing? {
      LoopServes(p.processing, m.step);
    }
    var q := Apply(p, m);
    assert q.processing.queue[..k - 1] == p.processing.queue[..k - 1];
  }

  /** A loop's flag, once lowered, stays down, so one that is up after a step that did not raise it was up before. */
  lemma FlagWasUp(p: System, m: Move, moves: seq<Move>, q: System)
    requires Alive(p) && Enabled(p, m) && Reaches(Apply(p, m), moves, q)
    ensures p.processing.running && q.processing.running ==> Apply(p, m).processing.running
    ensures p.output.running && q.output.running ==> Apply(p, m).output.running
  {
    hide Apply, Enabled;
    AliveKept(p, m);
    StageGrows(p, m);
    StageReaches(Apply(p, m), moves, q);
  }

  lemma {:induction false} StageReaches(p0: System, moves: seq<Move>, p: System)
    requires Alive(p0) && Reaches(p0, moves, p)
    ensures Alive(p) && p0.stage <= p.stage
    decreases |moves|
  {
    hide Alive, Enabled, Apply;
    if moves != [] {
      AliveKept(p0, moves[0]);
      StageGrows(p0, moves[0]);
      StageReaches(Apply(p0, moves[0]), moves[1..], p);
    }
  }

  /** What was taken stays taken. */
  lemma {:induction false} TakenGrows(p0: System, moves: seq<Move>, p: System)
    requires Reaches(p0, moves, p)
    ensures p0.processing.taken <= p.processing.taken && p0.output.taken <= p.output.taken
    decreases |moves|
  {
    hide Enabled, Apply;
    if moves != [] {
      StepTakes(p0, moves[0]);
      TakenGrows(Apply(p0, moves[0]), moves[1..], p);
    }
  }

  lemma StepTakes(p: System, m: Move)
    requires Enabled(p, m)
    ensures p.processing.taken <= Apply(p, m).processing.taken && p.output.taken <= Apply(p, m).output.taken
  {
    hide Step;
  }

  /**
   While its flag stays up, in any interleaving, more steps of the processing thread than the patience for k requests
   have the first k queued requests begun.
   */
  lemma {:induction false} RequestsServed(p0: System, moves: seq<Move>, p: System, k: nat)
    requires Alive(p0) && Reaches(p0, moves, p) && p0.processing.running && p.processing.running
    requires 1 <= k <= |p0.processing.queue| && Patience(p0, k) < StepsOf(moves, ProcessingThread)
    ensures p0.processing.taken + p0.processing.queue[..k] <= p.processing.taken
    decreases |moves|
  {
    hide Alive, Enabled, Apply, Patience;
    var m, q, p1 := moves[0], p0.processing.queue, Apply(p0, moves[0]);
    AliveKept(p0, m);
    FlagWasUp(p0, m, moves[1..], p);
    if m == Processing(Take) {
      Taken(p0);
      assert q[..k] == [q[0]] + q[1..][..k - 1];
      if k == 1 {
        TakenGrows(p1, moves[1..], p);
      } else {
        TakeServes(p0, k);
        RequestsServed(p1, moves[1..], p, k - 1);
        assert (p0.processing.taken + [q[0]]) + q[1..][..k - 1] == p0.processing.taken + q[..k];
      }
    } else {
      OtherServes(p0, m, k);
      RequestsServed(p1, moves[1..], p, k);
    }
  }

  lemma Taken(p: System)
    requires Enabled(p, Processing(Take))
    ensures var q := Apply(p, Processing(Take));
            && p.processing.queue != []
            && q.processing.taken == p.processing.taken + [p.processing.queue[0]]
            && q.processing.queue == p.processing.queue[1..]
  {
    hide Step;
  }

  /** At most three steps besides the messages of the running request, and the fourth begins the next request. */
  lemma NextRequestServed(p0: System, moves: seq<Move>, p: System)
    requires Alive(p0) && Reaches(p0, moves, p) && p0.processing.running && p.processing.running
    requires p0.processing.queue != [] && 4 + |p0.unposted| <= StepsOf(moves, ProcessingThread)
    ensures p0.processing.taken + [p0.processing.queue[0]] <= p.processing.taken
  {
    hide Alive, Reaches, StepsOf;
    assert p0.processing.queue[..0] == [] && Run(p0.engine, []).md == [];
    RequestsServed(p0, moves, p, 1);
    assert p0.processing.queue[..1] == [p0.processing.queue[0]];
  }

  // ---------- the output loop ----------

  lemma OutputServes(p: System, m: Move)
    requires Alive(p) && Enabled(p, m) && p.output.running && Apply(p, m).output.running && p.output.queue != []
    ensures var q := Apply(p, m);
            && Distance(q.output) + (if ThreadOf(m) == OutputThread then 1 else 0)
               <= Distance(p.output) + (if m == Move.Output(Take) then 2 else 0)
            && (if m == Move.Output(Take)
                then q.output.taken == p.output.taken + [p.output.queue[0]] && q.output.queue == p.output.queue[1..]
                else q.output.taken == p.output.taken && p.output.queue <= q.output.queue)
  {
    hide Step;
    if m.Output? {
      LoopServes(p.output, m.step);
    }
  }

  /** Likewise the output loop, with three steps for each message before the k-th. */
  lemma {:induction false} MessagesServed(p0: System, moves: seq<Move>, p: System, k: nat)
    requires Alive(p0) && Reaches(p0, moves, p) && p0.output.running && p.output.running
    requires 1 <= k <= |p0.output.queue| && Distance(p0.output) + 3 * (k - 1) < StepsOf(moves, OutputThread)
    ensures p0.output.taken + p0.output.queue[..k] <= p.output.taken
    decreases |moves|
  {
    hide Alive, Enabled, Apply, Distance;
    var m, q, p1 := moves[0], p0.output.queue, Apply(p0, moves[0]);
    AliveKept(p0, m);
    FlagWasUp(p0, m, moves[1..], p);
    OutputServes(p0, m);
    if m == Move.Output(Take) {
      assert q[..k] == [q[0]] + q[1..][..k - 1];
      if k == 1 {
        TakenGrows(p1, moves[1..], p);
      } else {
        MessagesServed(p1, moves[1..], p, k - 1);
        assert (p0.output.taken + [q[0]]) + q[1..][..k - 1] == p0.output.taken + q[..k];
      }
    } else {
      assert p1.output.queue[..k] == q[..k];
      MessagesServed(p1, moves[1..], p, k);
    }
  }

  // ---------- consumers first in, last out ----------

  /**
   In every state of every run from the start: what is posted finds its consumer's thread there to take it, and no
   consumer is told to stop before its producer is gone.
   */
  lemma ConsumerIsThere(symbols: set<Symbol>, a: Strategy, b: Strategy, c: Strategy, moves: seq<Move>, p: System)
    requires Reaches(Start(symbols, a, b, c), moves, p)
    ensures (exists r :: Enabled(p, Deliver(r))) ==> p.processing.pc !in {NotStarted, Drain, Exited}
    ensures Enabled(p, Emit) ==> p.output.pc !in {NotStarted, Drain, Exited}
    ensures p.processing.pc in {Drain, Exited} ==> p.input.pc == Exited
    ensures p.output.pc in {Drain, Exited} ==> p.processing.pc == Exited
  {
    StartKeeps(symbols, a, b, c, moves, p);
  }

  // ---------- parking ----------

  /** A loop waits on its queue only if it is configured to and found nothing else to do. */
  predicate ParksRightly<T>(l: Loop<T>)
  {
    l.pc == Wait ==> l.strategy == TimedWait && !l.didWork
  }

  lemma {:induction false} NeverParksBusy(p0: System, moves: seq<Move>, p: System)
    requires Reaches(p0, moves, p)
    requires ParksRightly(p0.input) && ParksRightly(p0.processing) && ParksRightly(p0.output)
    ensures ParksRightly(p.input) && ParksRightly(p.processing) && ParksRightly(p.output)
    decreases |moves|
  {
    hide Enabled, Apply, ParksRightly;
    if moves != [] {
      ParksKept(p0, moves[0]);
      NeverParksBusy(Apply(p0, moves[0]), moves[1..], p);
    }
  }

  lemma ParksKept(p: System, m: Move)
    requires Enabled(p, m)
    requires ParksRightly(p.input) && ParksRightly(p.processing) && ParksRightly(p.output)
    ensures var q := Apply(p, m); ParksRightly(q.input) && ParksRightly(q.processing) && ParksRightly(q.output)
  {
    hide Step;
  }

  /** The loop after these steps of its own, if they can be taken one after another. */
  ghost predicate Goes<T>(l: Loop<T>, steps: seq<LoopStep>, l': Loop<T>)
    decreases |steps|
  {
    if steps == [] then l' == l else Can(l, steps[0]) && Goes(Do(l, steps[0]), steps[1..], l')
  }

  /** Emptying the queue: tasks are taken and finished, and the loop remembers whether there were any. */
  lemma {:induction false} Empties<T>(l: Loop<T>, work: seq<LoopStep>, worked: bool, l': Loop<T>)
    requires l.pc == Dequeue && Goes(l, work + [FindEmpty, PollEnd(worked)], l')
    requires forall i :: 0 <= i < |work| ==> work[i] in {Take, Finish}
    ensures l'.pc == Wait <==> l.strategy == TimedWait && !l.didWork && !worked && work == []
    ensures l'.pc in {Wait, Head}
    decreases |work|
  {
    var steps := work + [FindEmpty, PollEnd(worked)];
    if work == [] {
      assert steps[0] == FindEmpty && steps[1..] == [PollEnd(worked)];
      var l1 := Do(l, FindEmpty);
      assert [PollEnd(worked)][0] == PollEnd(worked) && [PollEnd(worked)][1..] == [];
      assert Goes(Do(l1, PollEnd(worked)), [], l');
    } else {
      assert steps[0] == work[0] && steps[1..] == work[1..] + [FindEmpty, PollEnd(worked)];
      Empties(Do(l, work[0]), work[1..], worked, l');
      if work[0] == Take && work[1..] == [] {
        assert (work[1..] + [FindEmpty, PollEnd(worked)])[0] == FindEmpty;
      }
    }
  }

  /** One iteration of a running loop ends parked exactly when it waits when idle, ran no task and polled nothing. */
  lemma IterationParks<T>(l: Loop<T>, work: seq<LoopStep>, worked: bool, l': Loop<T>)
    requires l.pc == Head && l.running && Goes(l, [Observe] + (work + [FindEmpty, PollEnd(worked)]), l')
    requires forall i :: 0 <= i < |work| ==> work[i] in {Take, Finish}
    ensures l'.pc == Wait <==> l.strategy == TimedWait && work == [] && !worked
    ensures l'.pc in {Wait, Head}
  {
    var rest := work + [FindEmpty, PollEnd(worked)];
    assert ([Observe] + rest)[0] == Observe && ([Observe] + rest)[1..] == rest;
    Empties(Do(l, Observe), work, worked, l');
  }

}
