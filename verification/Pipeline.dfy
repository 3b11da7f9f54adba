/**
 The three-loop pipeline as a transition system. Each event loop is a thread with a program counter, a running flag
 and a task queue; the controller starts and stops them in stages. Any thread may take the next step.
 */
module Pipeline {
  import opened Wrappers
  import opened Types
  import opened FlatEngine

  // ---------- one event loop ----------

  datatype Strategy = TimedWait | BusySpin

  /**
   Where a loop's thread stands: testing the flag, emptying the queue, polling, done with the one handler a poll runs,
   parked, draining, gone.
   */
  datatype Pc = NotStarted | Head | Dequeue | Poll | Polled | Wait | Drain | Exited

  /** The logs posted and taken record what was ever enqueued and dequeued. */
  datatype Loop<T> = Loop(
    strategy: Strategy,
    running: bool,
    pc: Pc,
    didWork: bool,
    queue: seq<T>,
    current: Option<T>,
    posted: seq<T>,
    taken: seq<T>)

  function Idle<T>(strategy: Strategy): Loop<T>
  {
    Loop(strategy, false, NotStarted, false, [], None, [], [])
  }

  datatype LoopStep =
    | Observe          // read the running flag at the loop head
    | Take             // dequeue a task and begin to run it
    | Finish           // the running task returns
    | FindEmpty        // try_dequeue finds nothing
    | PollEnd(worked: bool)
    | Timeout          // the timed wait ends without a task

  predicate Can<T(==)>(l: Loop<T>, e: LoopStep)
  {
    match e
    case Observe => l.pc == Head
    case Take => l.pc in {Dequeue, Wait, Drain} && l.current == None && l.queue != []
    case Finish => l.current.Some?
    case FindEmpty => l.pc in {Dequeue, Drain} && l.current == None && l.queue == []
    case PollEnd(worked) => l.pc == Poll || (l.pc == Polled && worked)
    case Timeout => l.pc == Wait && l.current == None
  }

  function Do<T(==)>(l: Loop<T>, e: LoopStep): Loop<T>
    requires Can(l, e)
  {
    match e
    case Observe => if l.running then l.(pc := Dequeue, didWork := false) else l.(pc := Drain)
    case Take => l.(queue := l.queue[1..], taken := l.taken + [l.queue[0]], current := Some(l.queue[0]))
    case Finish => l.(current := None, didWork := true, pc := if l.pc == Wait then Head else l.pc)
    case FindEmpty => l.(pc := if l.pc == Drain then Exited else Poll)
    case PollEnd(worked) =>
      var didWork := worked || l.didWork;
      l.(didWork := didWork, pc := if l.strategy == TimedWait && !didWork then Wait else Head)
    case Timeout => l.(pc := Head)
  }

  function Post<T>(l: Loop<T>, task: T): Loop<T>
  {
    l.(queue := l.queue + [task], posted := l.posted + [task])
  }

  // ---------- the pipeline ----------

  datatype Which = In | Proc | Out

  datatype Action = Raise(which: Which) | Spawn(which: Which) | Lower(which: Which) | Join(which: Which)

  /** start() brings loops up from the outbound end, stop() takes them down from the inbound end, joining each. */
  const SCRIPT: seq<Action> :=
    [Raise(Out), Spawn(Out), Raise(Proc), Spawn(Proc), Raise(In), Spawn(In),
     Lower(In), Join(In), Lower(Proc), Join(Proc), Lower(Out), Join(Out)]

  /** Nothing ever posts a task to the input loop; it only polls. */
  datatype System = System(
    stage: nat,
    input: Loop<()>,
    processing: Loop<Request>,
    output: Loop<MdEvent>,
    engine: State,
    unposted: seq<MdEvent>,
    published: seq<MdEvent>)

  function Start(symbols: set<Symbol>, a: Strategy, b: Strategy, c: Strategy): System
  {
    System(0, Idle(a), Idle(b), Idle(c), Initial(symbols), [], [])
  }

  datatype Move =
    | Control
    | Input(step: LoopStep)
    | Deliver(request: Request)      // the poll's one handler decoded a request and posts it
    | Processing(step: LoopStep)
    | Emit                           // the running request posts its next market-data message
    | Output(step: LoopStep)

  function Act<T>(l: Loop<T>, a: Action): Loop<T>
  {
    match a
    case Raise(_) => l.(running := true)
    case Spawn(_) => l.(pc := Head)
    case Lower(_) => l.(running := false)
    case Join(_) => l
  }

  function PcOf(p: System, which: Which): Pc
  {
    match which
    case In => p.input.pc
    case Proc => p.processing.pc
    case Out => p.output.pc
  }

  predicate Enabled(p: System, m: Move)
  {
    match m
    case Control => p.stage < |SCRIPT| && (SCRIPT[p.stage].Join? ==> PcOf(p, SCRIPT[p.stage].which) == Exited)
    case Input(e) => Can(p.input, e)
    case Deliver(_) => p.input.pc == Poll
    case Processing(e) => Can(p.processing, e) && (e == Finish ==> p.unposted == [])
    case Emit => p.processing.current.Some? && p.unposted != []
    case Output(e) => Can(p.output, e)
  }

  function Apply(p: System, m: Move): System
    requires Enabled(p, m)
  {
    match m
    case Control =>
      var a := SCRIPT[p.stage];
      (match a.which
       case In => p.(stage := p.stage + 1, input := Act(p.input, a))
       case Proc => p.(stage := p.stage + 1, processing := Act(p.processing, a))
       case Out => p.(stage := p.stage + 1, output := Act(p.output, a)))
    case Input(e) => p.(input := Do(p.input, e))
    case Deliver(r) => p.(processing := Post(p.processing, r), input := p.input.(pc := Polled))
    case Processing(e) =>
      if e == Take then
        var ran := Step(p.engine, p.processing.queue[0]);
        p.(processing := Do(p.processing, e), engine := ran.state, unposted := ran.md)
      else p.(processing := Do(p.processing, e))
    case Emit => p.(output := Post(p.output, p.unposted[0]), unposted := p.unposted[1..])
    case Output(e) =>
      if e == Finish then p.(output := Do(p.output, e), published := p.published + [p.output.current.value])
      else p.(output := Do(p.output, e))
  }

  /** p is where some interleaving of steps leads from p0. */
  ghost predicate Reaches(p0: System, moves: seq<Move>, p: System)
    decreases |moves|
  {
    if moves == [] then p == p0
    else Enabled(p0, moves[0]) && Reaches(Apply(p0, moves[0]), moves[1..], p)
  }

  // ---------- invariants ----------

  /**
   What a loop took is a prefix of what was posted to it, in order, the rest is queued; an exited loop left nothing.
   */
  predicate LoopOk<T(==)>(l: Loop<T>)
  {
    && l.posted == l.taken + l.queue
    && (l.current.Some? ==>
          && l.pc in {Dequeue, Wait, Drain}
          && l.taken != [] && l.taken[|l.taken| - 1] == l.current.value)
    && (l.pc == Exited ==> l.queue == [] && l.current == None)
  }

  /**
   A loop's life against the controller's progress; raise is the stage that raises its flag, lower the one that lowers
   it.
   */
  predicate LifeOk<T>(l: Loop<T>, stage: nat, raise: nat, lower: nat)
  {
    && (l.running <==> raise < stage <= lower)
    && (l.pc == NotStarted <==> stage <= raise + 1)
    && (l.pc in {Drain, Exited} ==> stage > lower)
    && (stage > lower + 1 ==> l.pc == Exited)
  }

  predicate Alive(p: System)
  {
    && p.stage <= |SCRIPT|
    && LifeOk(p.output, p.stage, 0, 10) && LifeOk(p.processing, p.stage, 2, 8) && LifeOk(p.input, p.stage, 4, 6)
    && LoopOk(p.output) && LoopOk(p.processing) && LoopOk(p.input)
    && p.input.posted == []
    && (p.unposted != [] ==> p.processing.current.Some?)
  }

  /**
   What the engine produced is what it posted and is about to post; what was published is what the output loop ran.
   */
  ghost predicate Faithful(p: System, symbols: set<Symbol>)
  {
    var run := Run(Initial(symbols), p.processing.taken);
    && p.engine == run.state
    && run.md == p.output.posted + p.unposted
    && p.output.taken == p.published + (if p.output.current.Some? then [p.output.current.value] else [])
  }

  lemma LoopKept<T>(l: Loop<T>, e: LoopStep)
    requires LoopOk(l) && Can(l, e)
    ensures LoopOk(Do(l, e)) && Do(l, e).posted == l.posted && Do(l, e).running == l.running
  {
    if e == Take {
      assert l.taken + l.queue == (l.taken + [l.queue[0]]) + l.queue[1..];
    }
  }

  lemma LifeKept<T>(l: Loop<T>, e: LoopStep, stage: nat, raise: nat, lower: nat)
    requires LoopOk(l) && LifeOk(l, stage, raise, lower) && Can(l, e) && raise < lower
    ensures LifeOk(Do(l, e), stage, raise, lower)
  {
  }

  lemma PostKept<T>(l: Loop<T>, task: T)
    requires LoopOk(l) && l.pc != Exited
    ensures LoopOk(Post(l, task))
  {
    assert l.taken + (l.queue + [task]) == (l.taken + l.queue) + [task];
  }

  lemma ControlKept(p: System)
    requires Alive(p) && Enabled(p, Control)
    ensures Alive(Apply(p, Control))
  {
  }

  lemma DeliverKept(p: System, r: Request)
    requires Alive(p) && Enabled(p, Deliver(r))
    ensures Alive(Apply(p, Deliver(r)))
  {
    PostKept(p.processing, r);
  }

  lemma EmitKept(p: System)
    requires Alive(p) && Enabled(p, Emit)
    ensures Alive(Apply(p, Emit))
  {
    PostKept(p.output, p.unposted[0]);
  }

  lemma ProcessingKept(p: System, e: LoopStep)
    requires Alive(p) && Enabled(p, Processing(e))
    ensures Alive(Apply(p, Processing(e)))
  {
    hide Step;
    LoopKept(p.processing, e);
    LifeKept(p.processing, e, p.stage, 2, 8);
  }

  lemma OutputKept(p: System, e: LoopStep)
    requires Alive(p) && Enabled(p, Move.Output(e))
    ensures Alive(Apply(p, Move.Output(e)))
  {
    LoopKept(p.output, e);
    LifeKept(p.output, e, p.stage, 0, 10);
  }

  /** Every step of every thread keeps the loops' bookkeeping and their staged lives. */
  lemma AliveKept(p: System, m: Move)
    requires Alive(p) && Enabled(p, m)
    ensures Alive(Apply(p, m))
  {
    match m
    case Control => ControlKept(p);
    case Input(e) =>
      LoopKept(p.input, e);
      LifeKept(p.input, e, p.stage, 4, 6);
    case Deliver(r) => DeliverKept(p, r);
    case Processing(e) => ProcessingKept(p, e);
    case Emit => EmitKept(p);
    case Output(e) => OutputKept(p, e);
  }

  lemma RanFaithfully(p: System, symbols: set<Symbol>)
    requires Alive(p) && Faithful(p, symbols) && Enabled(p, Processing(Take))
    ensures Faithful(Apply(p, Processing(Take)), symbols)
  {
    hide Step;
    RunSnoc(Initial(symbols), p.processing.taken, p.processing.queue[0]);
    assert p.unposted == [] && p.output.posted + p.unposted == p.output.posted;
  }

  lemma PublishedFaithfully(p: System, e: LoopStep, symbols: set<Symbol>)
    requires Alive(p) && Faithful(p, symbols) && Enabled(p, Move.Output(e))
    ensures Faithful(Apply(p, Move.Output(e)), symbols)
  {
    hide Run;
    if e == Take {
      assert p.output.current == None;
      assert p.published + [] == p.published;
    } else if e == Finish {
      var done := p.published + [p.output.current.value];
      assert done + [] == done;
    }
  }

  /** Every step keeps what was produced, posted and published in agreement with the engine's own run. */
  lemma FaithfulKept(p: System, m: Move, symbols: set<Symbol>)
    requires Alive(p) && Faithful(p, symbols) && Enabled(p, m)
    ensures Faithful(Apply(p, m), symbols)
  {
    hide Run, Step;
    match m
    case Control =>
    case Input(_) =>
    case Deliver(_) =>
    case Processing(e) =>
      if e == Take {
        RanFaithfully(p, symbols);
      }
    case Emit =>
      assert (p.output.posted + [p.unposted[0]]) + p.unposted[1..] == p.output.posted + p.unposted;
    case Output(e) => PublishedFaithfully(p, e, symbols);
  }

  // ---------- every interleaving ----------

  /** The requests that the poller delivered, in the order it delivered them. */
  function Delivered(moves: seq<Move>): seq<Request>
  {
    if moves == [] then [] else (if moves[0].Deliver? then [moves[0].request] else []) + Delivered(moves[1..])
  }

  lemma ArrivalKept(p: System, m: Move)
    requires Enabled(p, m)
    ensures Apply(p, m).processing.posted == p.processing.posted + (if m.Deliver? then [m.request] else [])
  {
    hide Step;
    assert p.processing.posted + [] == p.processing.posted;
  }

  lemma {:induction false} ReachesKeeps(p0: System, moves: seq<Move>, p: System, symbols: set<Symbol>)
    requires Reaches(p0, moves, p) && Alive(p0) && Faithful(p0, symbols)
    ensures Alive(p) && Faithful(p, symbols) && p.processing.posted == p0.processing.posted + Delivered(moves)
    decreases |moves|
  {
    hide Alive, Faithful, Enabled, Apply;
    if moves != [] {
      AliveKept(p0, moves[0]);
      FaithfulKept(p0, moves[0], symbols);
      ArrivalKept(p0, moves[0]);
      ReachesKeeps(Apply(p0, moves[0]), moves[1..], p, symbols);
      var first := if moves[0].Deliver? then [moves[0].request] else [];
      assert (p0.processing.posted + first) + Delivered(moves[1..])
          == p0.processing.posted + (first + Delivered(moves[1..]));
    }
  }

  lemma StartKeeps(symbols: set<Symbol>, a: Strategy, b: Strategy, c: Strategy, moves: seq<Move>, p: System)
    requires Reaches(Start(symbols, a, b, c), moves, p)
    ensures Alive(p) && Faithful(p, symbols) && p.processing.posted == Delivered(moves)
  {
    var p0 := Start(symbols, a, b, c);
    assert Alive(p0) && Faithful(p0, symbols);
    ReachesKeeps(p0, moves, p, symbols);
    assert [] + Delivered(moves) == Delivered(moves);
  }

  /**
   In every interleaving the requests run are a prefix of those delivered, the messages run by the output loop are a
   prefix of those posted to it, and the published records are a prefix of what the engine alone would produce.
   */
  lemma InOrder(symbols: set<Symbol>, a: Strategy, b: Strategy, c: Strategy, moves: seq<Move>, p: System)
    requires Reaches(Start(symbols, a, b, c), moves, p)
    ensures p.processing.taken <= Delivered(moves) && p.output.taken <= p.output.posted
    ensures p.published <= p.output.taken && p.output.posted <= Run(Initial(symbols), p.processing.taken).md
    ensures p.published <= Run(Initial(symbols), Delivered(moves)).md
  {
    StartKeeps(symbols, a, b, c, moves, p);
    assert Delivered(moves) == p.processing.taken + p.processing.queue;
    RunAppend(Initial(symbols), p.processing.taken, p.processing.queue);
  }

  /**
   When stop() has returned, in whatever interleaving and with whatever idle strategies: all loops are gone, both
   queues are empty, every delivered request was run once and in order,
       and every message it produced was published once.
   */
  lemma StopLosesNothing(symbols: set<Symbol>, a: Strategy, b: Strategy, c: Strategy, moves: seq<Move>, p: System)
    requires Reaches(Start(symbols, a, b, c), moves, p) && p.stage == |SCRIPT|
    ensures p.input.pc == p.processing.pc == p.output.pc == Exited
    ensures p.processing.queue == [] && p.output.queue == [] && p.unposted == []
    ensures p.processing.taken == Delivered(moves)
    ensures p.published == Run(Initial(symbols), Delivered(moves)).md
    ensures p.engine == Run(Initial(symbols), Delivered(moves)).state
  {
    StartKeeps(symbols, a, b, c, moves, p);
    assert p.processing.taken + [] == p.processing.taken && p.output.taken + [] == p.output.taken;
    assert p.published + [] == p.published && p.output.posted + [] == p.output.posted;
  }

  // ---------- who touches what ----------

  datatype Thread = Controller | InputThread | ProcessingThread | OutputThread

  function ThreadOf(m: Move): Thread
  {
    match m
    case Control => Controller
    case Input(_) | Deliver(_) => InputThread
    case Processing(_) | Emit => ProcessingThread
    case Output(_) => OutputThread
  }

  /** The moves of one thread, in order. */
  function Of(moves: seq<Move>, t: Thread): seq<Move>
  {
    if moves == [] then [] else (if ThreadOf(moves[0]) == t then [moves[0]] else []) + Of(moves[1..], t)
  }

  function Times(moves: seq<Move>, m: Move): nat
  {
    if moves == [] then 0 else (if moves[0] == m then 1 else 0) + Times(moves[1..], m)
  }

  lemma {:induction false} DeliveredOf(moves: seq<Move>)
    ensures Delivered(Of(moves, InputThread)) == Delivered(moves)
    decreases |moves|
  {
    if moves != [] {
      DeliveredOf(moves[1..]);
      var own := Of(moves, InputThread);
      if ThreadOf(moves[0]) == InputThread {
        assert own[0] == moves[0] && own[1..] == Of(moves[1..], InputThread);
      } else {
        assert own == Of(moves[1..], InputThread);
        assert [] + Delivered(moves[1..]) == Delivered(moves[1..]);
      }
    }
  }

  lemma {:induction false} TimesOf(moves: seq<Move>, m: Move)
    ensures Times(Of(moves, ThreadOf(m)), m) == Times(moves, m)
    decreases |moves|
  {
    if moves != [] {
      TimesOf(moves[1..], m);
      var own := Of(moves, ThreadOf(m));
      if ThreadOf(moves[0]) == ThreadOf(m) {
        assert own[0] == moves[0] && own[1..] == Of(moves[1..], ThreadOf(m));
      } else {
        assert own == Of(moves[1..], ThreadOf(m));
      }
    }
  }

  /** How far each queue and the publisher have come from p0 to p: by so many takes, emissions and publications. */
  predicate Advanced(p0: System, p: System, takes: nat, emits: nat, outputTakes: nat, publications: nat)
  {
    && |p.processing.taken| == |p0.processing.taken| + takes
    && |p.output.posted| == |p0.output.posted| + emits
    && |p.output.taken| == |p0.output.taken| + outputTakes
    && |p.published| == |p0.published| + publications
  }

  lemma StepAdvances(p: System, m: Move)
    requires Enabled(p, m)
    ensures Advanced(p, Apply(p, m), if m == Processing(Take) then 1 else 0, if m == Emit then 1 else 0,
                     if m == Move.Output(Take) then 1 else 0, if m == Move.Output(Finish) then 1 else 0)
  {
    hide Step;
  }

  lemma {:induction false} RunAdvances(p0: System, moves: seq<Move>, p: System)
    requires Reaches(p0, moves, p)
    ensures Advanced(p0, p, Times(moves, Processing(Take)), Times(moves, Emit),
                     Times(moves, Move.Output(Take)), Times(moves, Move.Output(Finish)))
    decreases |moves|
  {
    hide Enabled, Apply;
    if moves != [] {
      StepAdvances(p0, moves[0]);
      RunAdvances(Apply(p0, moves[0]), moves[1..], p);
    }
  }

  /**
   Each queue has one producer and one consumer: over any run, what the processing queue received is what the input
   thread's own moves delivered, what left it is what the processing thread took, what the output queue received is
   what that same thread emitted, and only the output thread took from it and published.
   */
  lemma OneProducerOneConsumer(p0: System, moves: seq<Move>, p: System, symbols: set<Symbol>)
    requires Reaches(p0, moves, p) && Alive(p0) && Faithful(p0, symbols)
    ensures p.input.posted == []
    ensures p.processing.posted == p0.processing.posted + Delivered(Of(moves, InputThread))
    ensures Advanced(p0, p, Times(Of(moves, ProcessingThread), Processing(Take)), Times(Of(moves, ProcessingThread),
        Emit),
                     Times(Of(moves, OutputThread), Move.Output(Take)), Times(Of(moves, OutputThread),
                         Move.Output(Finish)))
  {
    hide Faithful, Reaches, Advanced, Times, Of, Delivered;
    ReachesKeeps(p0, moves, p, symbols);
    DeliveredOf(moves);
    RunAdvances(p0, moves, p);
    TimesOf(moves, Processing(Take));
    TimesOf(moves, Emit);
    TimesOf(moves, Move.Output(Take));
    TimesOf(moves, Move.Output(Finish));
  }

  // ---------- stop() returns ----------

  /** The most steps of its own that a loop still needs to reach its exit once its flag is down. */
  function Phase(pc: Pc): nat
  {
    match pc
    case NotStarted => 7
    case Dequeue => 6
    case Poll => 5
    case Polled => 4
    case Wait => 3
    case Head => 2
    case Drain => 1
    case Exited => 0
  }

  function LoopWork<T>(l: Loop<T>): nat
  {
    2 * |l.queue| + (if l.current.Some? then 1 else 0) + Phase(l.pc)
  }

  /** For the processing loop, the messages it still has to post count as well. */
  function ProcessingWork(p: System): nat
  {
    LoopWork(p.processing) + |p.unposted| + |Run(p.engine, p.processing.queue).md|
  }

  lemma LoopDescends<T>(l: Loop<T>, e: LoopStep)
    requires LoopOk(l) && Can(l, e) && !l.running
    ensures LoopWork(Do(l, e)) < LoopWork(l)
  {
  }

  /**
   Once the input loop was joined and the processing loop told to stop, each step of its thread brings its exit
   nearer.
   */
  lemma ProcessingDescends(p: System, m: Move)
    requires Alive(p) && Enabled(p, m) && p.stage > 8
    ensures if ThreadOf(m) == ProcessingThread then ProcessingWork(Apply(p, m)) < ProcessingWork(p)
            else ProcessingWork(Apply(p, m)) == ProcessingWork(p)
  {
    hide Step;
    if m.Processing? {
      LoopDescends(p.processing, m.step);
      if m.step == Take {
        var ran := Step(p.engine, p.processing.queue[0]);
        assert Run(p.engine, p.processing.queue) == Then(ran, Run(ran.state, p.processing.queue[1..]));
      }
    }
  }

  /** Likewise the output loop, once the processing loop was joined. */
  lemma OutputDescends(p: System, m: Move)
    requires Alive(p) && Enabled(p, m) && p.stage > 10
    ensures if ThreadOf(m) == OutputThread then LoopWork(Apply(p, m).output) < LoopWork(p.output)
            else LoopWork(Apply(p, m).output) == LoopWork(p.output)
  {
    if m.Output? {
      LoopDescends(p.output, m.step);
    }
  }

  /** And the input loop once told to stop: a poll under way delivers one request at most. */
  lemma InputDescends(p: System, m: Move)
    requires Alive(p) && Enabled(p, m) && p.stage > 6
    ensures if ThreadOf(m) == InputThread then LoopWork(Apply(p, m).input) < LoopWork(p.input)
            else LoopWork(Apply(p, m).input) == LoopWork(p.input)
  {
    hide Step;
    if m.Input? {
      LoopDescends(p.input, m.step);
    }
  }

  function StepsOf(moves: seq<Move>, t: Thread): nat
  {
    if moves == [] then 0 else (if ThreadOf(moves[0]) == t then 1 else 0) + StepsOf(moves[1..], t)
  }

  /** So the join of the processing loop waits for a bounded number of that thread's steps, whatever the others do. */
  lemma {:induction false} ProcessingJoins(p0: System, moves: seq<Move>, p: System)
    requires Alive(p0) && p0.stage > 8 && Reaches(p0, moves, p)
    ensures StepsOf(moves, ProcessingThread) + ProcessingWork(p) <= ProcessingWork(p0)
    decreases |moves|
  {
    hide Alive, ProcessingWork, Enabled, Apply;
    if moves != [] {
      AliveKept(p0, moves[0]);
      ProcessingDescends(p0, moves[0]);
      StageGrows(p0, moves[0]);
      ProcessingJoins(Apply(p0, moves[0]), moves[1..], p);
    }
  }

  lemma {:induction false} OutputJoins(p0: System, moves: seq<Move>, p: System)
    requires Alive(p0) && p0.stage > 10 && Reaches(p0, moves, p)
    ensures StepsOf(moves, OutputThread) + LoopWork(p.output) <= LoopWork(p0.output)
    decreases |moves|
  {
    hide Alive, LoopWork, Enabled, Apply;
    if moves != [] {
      AliveKept(p0, moves[0]);
      OutputDescends(p0, moves[0]);
      StageGrows(p0, moves[0]);
      OutputJoins(Apply(p0, moves[0]), moves[1..], p);
    }
  }

  lemma StageGrows(p: System, m: Move)
    requires Enabled(p, m)
    ensures p.stage <= Apply(p, m).stage
  {
    hide Step;
  }

  lemma {:induction false} InputJoins(p0: System, moves: seq<Move>, p: System)
    requires Alive(p0) && p0.stage > 6 && Reaches(p0, moves, p)
    ensures StepsOf(moves, InputThread) + LoopWork(p.input) <= LoopWork(p0.input)
    decreases |moves|
  {
    hide Alive, LoopWork, Enabled, Apply;
    if moves != [] {
      AliveKept(p0, moves[0]);
      InputDescends(p0, moves[0]);
      StageGrows(p0, moves[0]);
      InputJoins(Apply(p0, moves[0]), moves[1..], p);
    }
  }

  /** And a thread that was spawned and has not exited always has a step to take. */
  lemma NeverStuck(p: System)
    requires Alive(p)
    ensures p.input.pc !in {NotStarted, Exited} ==> exists e :: Enabled(p, Input(e))
    ensures p.processing.pc !in {NotStarted, Exited} ==> Enabled(p, Emit) || exists e :: Enabled(p, Processing(e))
    ensures p.output.pc !in {NotStarted, Exited} ==> exists e :: Enabled(p, Move.Output(e))
  {
    if p.input.pc !in {NotStarted, Exited} {
      assert Enabled(p, Input(NextStep(p.input)));
    }
    if p.processing.pc !in {NotStarted, Exited} && !Enabled(p, Emit) {
      assert Enabled(p, Processing(NextStep(p.processing)));
    }
    if p.output.pc !in {NotStarted, Exited} {
      assert Enabled(p, Move.Output(NextStep(p.output)));
    }
  }

  /** Some step that a live loop can take. */
  function NextStep<T(==)>(l: Loop<T>): (e: LoopStep)
    ensures LoopOk(l) && l.pc !in {NotStarted, Exited} ==> Can(l, e)
  {
    if l.current.Some? then Finish
    else match l.pc
      case Head => Observe
      case Poll => PollEnd(false)
      case Polled => PollEnd(true)
      case Wait => Timeout
      case _ => if l.queue == [] then FindEmpty else Take
  }

  /**
   A move that brings the controller's script forward: its own next action, or a step of the loop that it waits to
   join.
   */
  function NextMove(p: System): Move
    requires p.stage < |SCRIPT|
  {
    if Enabled(p, Control) then Control
    else match SCRIPT[p.stage].which
      case In => Input(NextStep(p.input))
      case Proc => if p.unposted != [] then Emit else Processing(NextStep(p.processing))
      case Out => Move.Output(NextStep(p.output))
  }

  /** How much work the loop to be joined still has. */
  function JoinWork(p: System): nat
    requires p.stage < |SCRIPT|
  {
    match SCRIPT[p.stage].which
    case In => LoopWork(p.input)
    case Proc => ProcessingWork(p)
    case Out => LoopWork(p.output)
  }

  lemma NextMoveHelps(p: System)
    requires Alive(p) && p.stage < |SCRIPT|
    ensures Enabled(p, NextMove(p)) && !NextMove(p).Deliver?
    ensures var q := Apply(p, NextMove(p));
            q.stage == p.stage + 1 || (q.stage == p.stage && JoinWork(q) < JoinWork(p))
  {
    hide Step, Run;
    if !Enabled(p, Control) {
      assert p.stage in {7, 9, 11};
      match SCRIPT[p.stage].which
      case In => InputDescends(p, NextMove(p));
      case Proc => ProcessingDescends(p, NextMove(p));
      case Out => OutputDescends(p, NextMove(p));
    }
  }

  /** From every state that can be met, start() and stop() can run to their end without another request arriving. */
  lemma {:induction false} StopCanReturn(p: System) returns (moves: seq<Move>, q: System)
    requires Alive(p)
    ensures Reaches(p, moves, q) && q.stage == |SCRIPT| && Delivered(moves) == []
    decreases |SCRIPT| - p.stage, if p.stage < |SCRIPT| then JoinWork(p) else 0
  {
    hide Alive, JoinWork, Enabled, Apply, NextMove;
    if p.stage >= |SCRIPT| {
      moves, q := [], p;
      StageBound(p);
    } else {
      NextMoveHelps(p);
      AliveKept(p, NextMove(p));
      StageBound(Apply(p, NextMove(p)));
      var rest;
      rest, q := StopCanReturn(Apply(p, NextMove(p)));
      moves := [NextMove(p)] + rest;
      assert moves[1..] == rest;
    }
  }

  lemma StageBound(p: System)
    requires Alive(p)
    ensures p.stage <= |SCRIPT|
  {
  }

  lemma {:induction false} ReachesAppend(p0: System, a: seq<Move>, p1: System, b: seq<Move>, p2: System)
    requires Reaches(p0, a, p1) && Reaches(p1, b, p2)
    ensures Reaches(p0, a + b, p2) && Delivered(a + b) == Delivered(a) + Delivered(b)
    decreases |a|
  {
    hide Enabled, Apply;
    if a == [] {
      assert a + b == b;
    } else {
      assert (a + b)[0] == a[0] && (a + b)[1..] == a[1..] + b;
      ReachesAppend(Apply(p0, a[0]), a[1..], p1, b, p2);
      var head := if a[0].Deliver? then [a[0].request] else [];
      assert head + (Delivered(a[1..]) + Delivered(b)) == (head + Delivered(a[1..])) + Delivered(b);
    }
  }

  lemma OneMore(p0: System, moves: seq<Move>, p: System, m: Move)
    requires Reaches(p0, moves, p) && Enabled(p, m)
    ensures Reaches(p0, moves + [m], Apply(p, m))
    ensures Delivered(moves + [m]) == Delivered(moves) + (if m.Deliver? then [m.request] else [])
  {
    assert Reaches(Apply(p, m), [m][1..], Apply(p, m));
    ReachesAppend(p0, moves, p, [m], Apply(p, m));
    assert [m][1..] == [];
  }

  /** The pipeline is up and its input loop stands at the head of an iteration. */
  predicate Ticking(p: System)
  {
    Alive(p) && p.stage == 6 && p.input.pc == Head && p.input.running && p.input.queue == [] && p.input.current == None
  }

  /** The six actions of start() bring the pipeline up. */
  lemma {:induction false} StartsTicking(symbols: set<Symbol>, a: Strategy, b: Strategy, c: Strategy, k: nat)
    returns (moves: seq<Move>, p: System)
    requires k <= 6
    ensures Reaches(Start(symbols, a, b, c), moves, p) && Delivered(moves) == [] && Alive(p)
    ensures p.stage == k && p.input.queue == [] && p.input.current == None
    ensures k < 6 ==> p.input.pc == NotStarted
    ensures k == 6 ==> Ticking(p)
  {
    var p0 := Start(symbols, a, b, c);
    assert Alive(p0);
    if k == 0 {
      moves, p := [], p0;
    } else {
      moves, p := StartsTicking(symbols, a, b, c, k - 1);
      AliveKept(p, Control);
      OneMore(p0, moves, p, Control);
      moves, p := moves + [Control], Apply(p, Control);
    }
  }

  /** One iteration of the input loop: flag up, no task, one request delivered, work reported. */
  lemma OneIteration(p: System, r: Request) returns (moves: seq<Move>, q: System)
    requires Ticking(p)
    ensures Reaches(p, moves, q) && Ticking(q) && Delivered(moves) == [r]
  {
    AliveKept(p, Input(Observe));
    var p1 := Apply(p, Input(Observe));
    AliveKept(p1, Input(FindEmpty));
    var p2 := Apply(p1, Input(FindEmpty));
    AliveKept(p2, Deliver(r));
    var p3 := Apply(p2, Deliver(r));
    AliveKept(p3, Input(PollEnd(true)));
    q := Apply(p3, Input(PollEnd(true)));
    hide Enabled, Apply, Alive;
    moves := [];
    FirstMove(p3, Input(PollEnd(true)), moves, q);
    moves := [Input(PollEnd(true))] + moves;
    FirstMove(p2, Deliver(r), moves, q);
    moves := [Deliver(r)] + moves;
    FirstMove(p1, Input(FindEmpty), moves, q);
    moves := [Input(FindEmpty)] + moves;
    FirstMove(p, Input(Observe), moves, q);
    moves := [Input(Observe)] + moves;
  }

  lemma FirstMove(p: System, m: Move, rest: seq<Move>, q: System)
    requires Enabled(p, m) && Reaches(Apply(p, m), rest, q)
    ensures Reaches(p, [m] + rest, q)
    ensures Delivered([m] + rest) == (if m.Deliver? then [m.request] else []) + Delivered(rest)
  {
    hide Enabled, Apply;
    assert ([m] + rest)[0] == m && ([m] + rest)[1..] == rest;
  }

  /** One iteration for each request. */
  lemma {:induction false} Iterations(p: System, rs: seq<Request>) returns (moves: seq<Move>, q: System)
    requires Ticking(p)
    ensures Reaches(p, moves, q) && Ticking(q) && Delivered(moves) == rs
    decreases |rs|
  {
    hide Ticking;
    if rs == [] {
      moves, q := [], p;
    } else {
      var m0, p1 := OneIteration(p, rs[0]);
      var m1, p2 := Iterations(p1, rs[1..]);
      ReachesAppend(p, m0, p1, m1, p2);
      moves, q := m0 + m1, p2;
      assert [rs[0]] + rs[1..] == rs;
    }
  }

  /**
   Any requests at all can be delivered, one in each iteration, and then the pipeline stopped with all output
   published.
   */
  lemma WholeRunExists(symbols: set<Symbol>, a: Strategy, b: Strategy, c: Strategy, rs: seq<Request>)
    returns (moves: seq<Move>, p: System)
    ensures Reaches(Start(symbols, a, b, c), moves, p) && p.stage == |SCRIPT| && Delivered(moves) == rs
    ensures p.published == Run(Initial(symbols), rs).md
  {
    hide Alive;
    var p0 := Start(symbols, a, b, c);
    var m0, p1 := StartsTicking(symbols, a, b, c, 6);
    var m1, p2 := Iterations(p1, rs);
    ReachesAppend(p0, m0, p1, m1, p2);
    var m2, p3 := StopCanReturn(p2);
    ReachesAppend(p0, m0 + m1, p2, m2, p3);
    assert ([] + rs) + [] == rs;
    moves, p := m0 + m1 + m2, p3;
    StopLosesNothing(symbols, a, b, c, moves, p);
  }

}
