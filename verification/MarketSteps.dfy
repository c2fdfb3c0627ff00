/**
 The concurrent market as a system of steps: one client that submits, one queue
 and one worker for each handler of books. Any sequence of steps is a run.
 */
module MarketSteps {
  import opened BookModel
  import opened BookInvariants
  import opened Markets
  import opened Runs

  /** A task together with the handler it was bound to when it was submitted. */
  datatype Job = Job(handler: nat, task: Task)

  /** Where a worker stands in its loop: about to read the flag, the queue's emptiness, to pop, to execute; or done. */
  datatype Worker = ReadingFlag | ReadingQueue | Popping | Executing(job: Job) | Exited

  datatype System = System(
    queues: seq<seq<Job>>,
    workers: seq<Worker>,
    handlers: seq<map<nat, Book>>,
    done: seq<seq<Job>>,        // the jobs each worker has executed
    running: bool,
    routes: map<nat, nat>,      // symbol to queue and handler
    next: nat                   // where the next new symbol goes
  )
  {
    predicate Fits(n: nat) {
      && |queues| == |workers| == |handlers| == |done| == n && next < n
      && forall symbol :: symbol in routes ==> routes[symbol] < n
    }

    function At(i: nat, w: Worker): System
      requires i < |workers|
    {
      this.(workers := workers[i := w])
    }
  }

  datatype Step = Submit(task: Task) | Stop | Work(worker: nat)

  function Initial(n: nat): System {
    System(seq(n, _ => []), seq(n, _ => ReadingFlag), seq(n, _ => map[]), seq(n, _ => []), true, map[], 0)
  }

  /** The queue of a task: that of its symbol, the first one for an unknown symbol. */
  function Destination(routes: map<nat, nat>, next: nat, t: Task): nat {
    if t.AddBook? then next else if t.symbol in routes then routes[t.symbol] else 0
  }

  /** A new symbol is given the queue whose turn it is; a known one keeps its own. */
  function Routed(routes: map<nat, nat>, next: nat, t: Task): map<nat, nat> {
    if t.AddBook? && t.symbol !in routes then routes[t.symbol := next] else routes
  }

  function Advanced(next: nat, n: nat, t: Task): nat
    requires 0 < n
  {
    if t.AddBook? then (next + 1) % n else next
  }

  function SubmitTask(s: System, n: nat, t: Task): (r: System)
    requires 0 < n && s.Fits(n)
    ensures r.Fits(n)
  {
    var i := Destination(s.routes, s.next, t);
    s.(queues := s.queues[i := s.queues[i] + [Job(i, t)]],
       routes := Routed(s.routes, s.next, t), next := Advanced(s.next, n, t))
  }

  /** One step of a worker. A job its handler does not permit is never finished. */
  ghost function WorkStep(s: System, n: nat, i: nat): (r: System)
    requires s.Fits(n) && i < n
    ensures r.Fits(n)
  {
    match s.workers[i]
    case ReadingFlag => s.At(i, if s.running then Popping else ReadingQueue)
    case ReadingQueue => s.At(i, if s.queues[i] == [] then Exited else Popping)
    case Popping =>
      if s.queues[i] == [] then s.At(i, ReadingFlag)
      else s.At(i, Executing(s.queues[i][0])).(queues := s.queues[i := s.queues[i][1..]])
    case Executing(job) =>
      if job.handler < n && Permits(s.handlers[job.handler], job.task) then
        s.At(i, ReadingFlag).(
          handlers := s.handlers[job.handler := Handle(s.handlers[job.handler], job.task)],
          done := s.done[i := s.done[i] + [job]])
      else s
    case Exited => s
  }

  ghost function Do(s: System, n: nat, step: Step): (r: System)
    requires 0 < n && s.Fits(n)
    ensures r.Fits(n)
  {
    match step
    case Submit(t) => SubmitTask(s, n, t)
    case Stop => s.(running := false)
    case Work(i) => if i < n then WorkStep(s, n, i) else s
  }

  /** The system after a run. */
  ghost function After(n: nat, steps: seq<Step>): (r: System)
    requires 0 < n
    ensures r.Fits(n)
    decreases |steps|
  {
    if steps == [] then Initial(n) else var m := |steps| - 1; Do(After(n, steps[..m]), n, steps[m])
  }

  // ------------------------------------------------------------ what the client has submitted

  /** What a run submits, in order. */
  function Calls(steps: seq<Step>): seq<Task> {
    if steps == [] then [] else
      var m := |steps| - 1;
      if steps[m].Submit? then Calls(steps[..m]) + [steps[m].task] else Calls(steps[..m])
  }

  function NextQueue(n: nat, calls: seq<Task>): nat
    requires 0 < n
  {
    if calls == [] then 0 else var m := |calls| - 1; Advanced(NextQueue(n, calls[..m]), n, calls[m])
  }

  function Routes(n: nat, calls: seq<Task>): map<nat, nat>
    requires 0 < n
  {
    if calls == [] then map[]
    else
      var m := |calls| - 1;
      Routed(Routes(n, calls[..m]), NextQueue(n, calls[..m]), calls[m])
  }

  /** The jobs that go to one queue, in the order of the client's calls. */
  function Sent(n: nat, calls: seq<Task>, i: nat): seq<Job>
    requires 0 < n
  {
    if calls == [] then [] else
      var m := |calls| - 1;
      var j := Destination(Routes(n, calls[..m]), NextQueue(n, calls[..m]), calls[m]);
      if i == j then Sent(n, calls[..m], i) + [Job(j, calls[m])] else Sent(n, calls[..m], i)
  }

  function Tasks(jobs: seq<Job>): seq<Task> {
    if jobs == [] then [] else var m := |jobs| - 1; Tasks(jobs[..m]) + [jobs[m].task]
  }

  lemma {:induction false} OwnHandler(n: nat, calls: seq<Task>, i: nat)
    requires 0 < n
    ensures forall job :: job in Sent(n, calls, i) ==> job.handler == i
    decreases |calls|
  {
    if calls != [] {
      OwnHandler(n, calls[..|calls| - 1], i);
    }
  }

  lemma OneMoreCall(n: nat, calls: seq<Task>, t: Task, i: nat)
    requires 0 < n
    ensures Routes(n, calls + [t]) == Routed(Routes(n, calls), NextQueue(n, calls), t)
    ensures NextQueue(n, calls + [t]) == Advanced(NextQueue(n, calls), n, t)
    ensures
      var j := Destination(Routes(n, calls), NextQueue(n, calls), t);
      Sent(n, calls + [t], i) == if i == j then Sent(n, calls, i) + [Job(j, t)] else Sent(n, calls, i)
  {
    assert (calls + [t])[..|calls|] == calls;
  }

  lemma WorkersKeepRoutes(s: System, n: nat, step: Step)
    requires 0 < n && s.Fits(n) && !step.Submit?
    ensures Do(s, n, step).routes == s.routes && Do(s, n, step).next == s.next
  {
    hide Permits, Handle;
  }

  /** The client's side does not depend on the workers. */
  lemma {:induction false} ClientSide(n: nat, steps: seq<Step>)
    requires 0 < n
    ensures
      var s, calls := After(n, steps), Calls(steps);
      s.routes == Routes(n, calls) && s.next == NextQueue(n, calls)
    decreases |steps|
  {
    hide WorkStep;
    if steps != [] {
      hide Routed, Advanced, Destination, Routes, NextQueue;
      var m := |steps| - 1;
      ClientSide(n, steps[..m]);
      if steps[m].Submit? {
        OneMoreCall(n, Calls(steps[..m]), steps[m].task, 0);
      } else {
        WorkersKeepRoutes(After(n, steps[..m]), n, steps[m]);
      }
    }
  }

  // ------------------------------------------------------------ first in, first out, exactly once

  function Held(w: Worker): seq<Job> {
    if w.Executing? then [w.job] else []
  }

  /** What a queue was sent is what its worker has executed, holds, and has still to fetch, in that order. */
  lemma {:induction false} Flow(n: nat, steps: seq<Step>, i: nat)
    requires i < n
    ensures
      var s := After(n, steps);
      s.done[i] + Held(s.workers[i]) + s.queues[i] == Sent(n, Calls(steps), i)
    decreases |steps|
  {
    hide After, Calls, Sent, Held;
    if steps == [] {
      NothingFlows(n, i);
    } else {
      var m := |steps| - 1;
      Flow(n, steps[..m], i);
      FlowStep(n, steps[..m], steps[m], i);
      assert steps == steps[..m] + [steps[m]];
    }
  }

  lemma NothingFlows(n: nat, i: nat)
    requires i < n
    ensures
      var s := After(n, []);
      s.done[i] + Held(s.workers[i]) + s.queues[i] == Sent(n, Calls([]), i)
  {
  }

  lemma FlowStep(n: nat, front: seq<Step>, step: Step, i: nat)
    requires i < n
    requires var s := After(n, front); s.done[i] + Held(s.workers[i]) + s.queues[i] == Sent(n, Calls(front), i)
    ensures
      var s := After(n, front + [step]);
      s.done[i] + Held(s.workers[i]) + s.queues[i] == Sent(n, Calls(front + [step]), i)
  {
    hide Destination, Routed, Advanced, Routes, NextQueue, Sent, WorkStep, SubmitTask;
    var s := After(n, front);
    assert (front + [step])[..|front|] == front;
    if step.Submit? {
      ClientSide(n, front);
      OneMoreCall(n, Calls(front), step.task, i);
      FlowSubmit(s, n, step.task, i);
    } else if step == Work(i) {
      FlowWork(s, n, i);
    } else {
      FlowElsewhere(s, n, step, i);
    }
  }

  lemma FlowSubmit(s: System, n: nat, t: Task, i: nat)
    requires s.Fits(n) && i < n
    ensures
      var r, j := SubmitTask(s, n, t), Destination(s.routes, s.next, t);
      r.done[i] == s.done[i] && r.workers[i] == s.workers[i]
      && r.queues[i] == if i == j then s.queues[i] + [Job(j, t)] else s.queues[i]
  {
  }

  lemma FlowWork(s: System, n: nat, i: nat)
    requires s.Fits(n) && i < n
    ensures
      var r := WorkStep(s, n, i);
      r.done[i] + Held(r.workers[i]) + r.queues[i] == s.done[i] + Held(s.workers[i]) + s.queues[i]
  {
    hide Permits, Handle;
    if s.workers[i].Popping? && s.queues[i] != [] {
      assert s.queues[i] == [s.queues[i][0]] + s.queues[i][1..];
    }
  }

  lemma FlowElsewhere(s: System, n: nat, step: Step, i: nat)
    requires s.Fits(n) && i < n && !step.Submit? && step != Work(i)
    ensures
      var r := Do(s, n, step);
      r.done[i] == s.done[i] && r.workers[i] == s.workers[i] && r.queues[i] == s.queues[i]
  {
  }

  /** No worker ever touches another worker's handler: a handler's books are what its own worker made of them. */
  lemma {:induction false} HandlersReplay(n: nat, steps: seq<Step>, i: nat)
    requires i < n
    ensures
      var s := After(n, steps);
      Permitted(Tasks(s.done[i])) && s.handlers[i] == Final(Tasks(s.done[i]))
    decreases |steps|
  {
    hide Permits, Handle, Permitted, Final, WorkStep, Tasks, Destination, Routed, Advanced;
    if steps == [] {
      NothingReplays(n, i);
    } else {
      var m := |steps| - 1;
      HandlersReplay(n, steps[..m], i);
      if steps[m].Work? && steps[m].worker < n {
        HandlerStep(n, steps[..m], steps[m].worker, i);
      }
    }
  }

  lemma NothingReplays(n: nat, i: nat)
    requires i < n
    ensures
      var s := After(n, []);
      Permitted(Tasks(s.done[i])) && s.handlers[i] == Final(Tasks(s.done[i]))
  {
  }

  lemma HandlerStep(n: nat, steps: seq<Step>, w: nat, i: nat)
    requires i < n && w < n
    requires
      var s := After(n, steps);
      Permitted(Tasks(s.done[i])) && s.handlers[i] == Final(Tasks(s.done[i]))
    ensures
      var r := WorkStep(After(n, steps), n, w);
      Permitted(Tasks(r.done[i])) && r.handlers[i] == Final(Tasks(r.done[i]))
  {
    hide Permits, Handle, After, Calls, Sent, Permitted, Final, Tasks;
    var s := After(n, steps);
    if s.workers[w].Executing? {
      Flow(n, steps, w);
      OwnHandler(n, Calls(steps), w);
      var job := s.workers[w].job;
      assert job in Sent(n, Calls(steps), w);
      if w == i && Permits(s.handlers[i], job.task) {
        JobReplays(s.done[i], job);
      }
    }
  }

  lemma JobReplays(done: seq<Job>, job: Job)
    requires Permitted(Tasks(done)) && Permits(Final(Tasks(done)), job.task)
    ensures Permitted(Tasks(done + [job])) && Final(Tasks(done + [job])) == Handle(Final(Tasks(done)), job.task)
  {
    assert (done + [job])[..|done|] == done;
    PermittedAppend(Tasks(done), job.task);
  }

  // ------------------------------------------------------------ each book is the sequential market's

  /** The share of one handler in the books of the market. */
  function Part(books: map<nat, Book>, routes: map<nat, nat>, i: nat): map<nat, Book> {
    map symbol | symbol in books && symbol in routes && routes[symbol] == i :: books[symbol]
  }

  lemma {:induction false} RoutesKnow(n: nat, calls: seq<Task>)
    requires 0 < n && Permitted(calls)
    ensures Routes(n, calls).Keys == Final(calls).Keys
    decreases |calls|
  {
    hide Struct, Allowed, Apply;
    if calls != [] {
      RoutesKnow(n, calls[..|calls| - 1]);
    }
  }

  /** Handling only what one queue was sent gives that handler's share of the sequential market. */
  lemma {:induction false} SentMakesPart(n: nat, calls: seq<Task>, i: nat)
    requires 0 < n && Permitted(calls)
    ensures
      var own := Tasks(Sent(n, calls, i));
      Permitted(own) && Final(own) == Part(Final(calls), Routes(n, calls), i)
    decreases |calls|
  {
    if calls != [] {
      hide Permits, Handle, Tasks, Routes, Sent, NextQueue, Advanced;
      var m := |calls| - 1;
      var front, t := calls[..m], calls[m];
      assert calls == front + [t];
      SentMakesPart(n, front, i);
      RoutesKnow(n, front);
      OneMoreCall(n, front, t, i);
      var routes, next := Routes(n, front), NextQueue(n, front);
      PartGrows(Final(front), routes, next, t, i);
      if Destination(routes, next, t) == i {
        JobReplays(Sent(n, front, i), Job(i, t));
      }
    }
  }

  /** A task changes the share of the handler it is sent to just as it changes the books, and no other share. */
  lemma PartGrows(books: map<nat, Book>, routes: map<nat, nat>, next: nat, t: Task, i: nat)
    requires Permits(books, t) && routes.Keys == books.Keys
    ensures
      var own, now := Part(books, routes, i), Part(Handle(books, t), Routed(routes, next, t), i);
      if Destination(routes, next, t) == i then Permits(own, t) && now == Handle(own, t) else now == own
  {
    hide Struct, Allowed, Apply;
  }

  /** Any first part of what a queue was sent is all it was sent by some first part of the calls. */
  lemma {:induction false} SentPrefix(n: nat, calls: seq<Task>, i: nat, sent: nat) returns (k: nat)
    requires 0 < n && sent <= |Sent(n, calls, i)|
    ensures k <= |calls| && Sent(n, calls[..k], i) == Sent(n, calls, i)[..sent]
    decreases |calls|
  {
    if sent == |Sent(n, calls, i)| {
      k := |calls|;
      assert calls[..k] == calls;
    } else {
      var m := |calls| - 1;
      k := SentPrefix(n, calls[..m], i, sent);
      assert calls[..m][..k] == calls[..k];
    }
  }

  /**
   At every moment of every interleaving, a handler's books are exactly what the
   sequential market had for its symbols after some first part of the client's
   calls, and what its worker is about to execute is permitted there.
   */
  lemma EveryMoment(n: nat, steps: seq<Step>, i: nat) returns (k: nat)
    requires i < n && Permitted(Calls(steps))
    ensures k <= |Calls(steps)| && Permitted(Calls(steps)[..k])
    ensures
      var s, calls := After(n, steps), Calls(steps)[..k];
      && s.done[i] == Sent(n, calls, i)
      && s.handlers[i] == Part(Final(calls), Routes(n, calls), i)
      && (s.workers[i].Executing? ==> var job := s.workers[i].job; job.handler == i && Permits(s.handlers[i], job.task))
  {
    hide Permits, Handle, WorkStep;
    var s, calls := After(n, steps), Calls(steps);
    Flow(n, steps, i);
    HandlersReplay(n, steps, i);
    k := SentPrefix(n, calls, i, |s.done[i]|);
    assert Sent(n, calls, i)[..|s.done[i]|] == s.done[i];
    PermittedPrefix(calls, k);
    SentMakesPart(n, calls[..k], i);
    if s.workers[i].Executing? {
      OwnHandler(n, calls, i);
      var jobs := s.done[i] + [s.workers[i].job];
      assert s.workers[i].job in Sent(n, calls, i);
      var l := SentPrefix(n, calls, i, |jobs|);
      assert Sent(n, calls, i)[..|jobs|] == jobs;
      PermittedPrefix(calls, l);
      SentMakesPart(n, calls[..l], i);
      assert jobs[..|s.done[i]|] == s.done[i];
      PermittedAppend(Tasks(s.done[i]), s.workers[i].job.task);
    }
  }

  lemma {:induction false} OwnTasksSent(n: nat, calls: seq<Task>, symbol: nat)
    requires 0 < n && Permitted(calls) && symbol in Routes(n, calls)
    ensures OfSymbol(Tasks(Sent(n, calls, Routes(n, calls)[symbol])), symbol) == OfSymbol(calls, symbol)
    decreases |calls|
  {
    hide Struct, Allowed, Apply, Handle, Advanced;
    var m := |calls| - 1;
    var front, i := calls[..m], Routes(n, calls)[symbol];
    assert calls == front + [calls[m]];
    OneMoreCall(n, front, calls[m], i);
    var jobs := Sent(n, front, i);
    assert (jobs + [Job(i, calls[m])])[..|jobs|] == jobs;
    assert (Tasks(jobs) + [calls[m]])[..|Tasks(jobs)|] == Tasks(jobs);
    RoutesKnow(n, front);
    if symbol in Routes(n, front) {
      OwnTasksSent(n, front, symbol);
    } else {
      SentMakesPart(n, front, i);
      NoBookNoTask(front, symbol);
      NoBookNoTask(Tasks(jobs), symbol);
    }
  }

  /**
   For every interleaving, the operations applied to a symbol's book so far are the
   first ones submitted for that symbol, in the order of their submission, and
   they alone make up the book.
   */
  lemma EachSymbolInOrder(n: nat, steps: seq<Step>, symbol: nat)
    requires 0 < n && Permitted(Calls(steps)) && symbol in After(n, steps).routes
    ensures
      var s := After(n, steps);
      var i := s.routes[symbol];
      var own := OfSymbol(Tasks(s.done[i]), symbol);
      && own <= OfSymbol(Calls(steps), symbol) && Permitted(own) && SameBook(s.handlers[i], Final(own), symbol)
      && Ops(own) <= Ops(OfSymbol(Calls(steps), symbol))
      && (symbol in s.handlers[i] ==> Reaches(EmptyBook, Ops(own), s.handlers[i][symbol]))
  {
    hide Permits, Handle, Do, Reaches, Ops;
    var s, calls := After(n, steps), Calls(steps);
    var i := s.routes[symbol];
    ClientSide(n, steps);
    HandlersReplay(n, steps, i);
    BookIsOwnTasks(Tasks(s.done[i]), symbol);
    OwnTasksSent(n, calls, symbol);
    Flow(n, steps, i);
    TasksPrefix(Sent(n, calls, i), |s.done[i]|, symbol);
    assert Sent(n, calls, i)[..|s.done[i]|] == s.done[i];
    OpsPrefix(OfSymbol(Tasks(s.done[i]), symbol), OfSymbol(calls, symbol));
    if symbol in s.handlers[i] {
      BookIsItsOperations(Tasks(s.done[i]), symbol);
    }
  }

  lemma {:induction false} OpsPrefix(tasks: seq<Task>, more: seq<Task>)
    requires tasks <= more
    ensures Ops(tasks) <= Ops(more)
    decreases |more|
  {
    if tasks != more {
      OpsPrefix(tasks, more[..|more| - 1]);
    }
  }

  lemma {:induction false} TasksPrefix(jobs: seq<Job>, k: nat, symbol: nat)
    requires k <= |jobs|
    ensures OfSymbol(Tasks(jobs[..k]), symbol) <= OfSymbol(Tasks(jobs), symbol)
    decreases |jobs|
  {
    if k < |jobs| {
      var m := |jobs| - 1;
      TasksPrefix(jobs[..m], k, symbol);
      assert jobs[..m][..k] == jobs[..k];
      assert (Tasks(jobs[..m]) + [jobs[m].task])[..|Tasks(jobs[..m])|] == Tasks(jobs[..m]);
    } else {
      assert jobs[..k] == jobs;
    }
  }

  // ------------------------------------------------------------ shutting down

  /** The steps before the pool was first told to stop. */
  function Before(steps: seq<Step>): (r: seq<Step>)
    ensures r <= steps
  {
    if steps == [] then [] else
      var m := |steps| - 1;
      if Stop in steps[..m] then Before(steps[..m]) else if steps[m].Stop? then steps[..m] else steps
  }

  lemma {:induction false} CallsPrefix(steps: seq<Step>, k: nat)
    requires k <= |steps|
    ensures Calls(steps[..k]) <= Calls(steps)
    decreases |steps|
  {
    if k < |steps| {
      var m := |steps| - 1;
      CallsPrefix(steps[..m], k);
      assert steps[..m][..k] == steps[..k];
    } else {
      assert steps[..k] == steps;
    }
  }

  lemma {:induction false} SentGrows(n: nat, calls: seq<Task>, k: nat, i: nat)
    requires 0 < n && k <= |calls|
    ensures Sent(n, calls[..k], i) <= Sent(n, calls, i)
    decreases |calls|
  {
    if k < |calls| {
      var m := |calls| - 1;
      SentGrows(n, calls[..m], k, i);
      assert calls[..m][..k] == calls[..k];
    } else {
      assert calls[..k] == calls;
    }
  }

  lemma SentBefore(n: nat, steps: seq<Step>, i: nat)
    requires 0 < n
    ensures Sent(n, Calls(Before(steps)), i) <= Sent(n, Calls(steps), i)
  {
    var k := |Before(steps)|;
    assert steps[..k] == Before(steps);
    CallsPrefix(steps, k);
    var l := |Calls(Before(steps))|;
    assert Calls(steps)[..l] == Calls(Before(steps));
    SentGrows(n, Calls(steps), l, i);
  }

  /** A worker leaves only after a stop, and not before it has executed all that was submitted to it before that. */
  lemma {:induction false} ExitedHasDrained(n: nat, steps: seq<Step>, i: nat)
    requires i < n
    ensures
      var s := After(n, steps);
      && (s.running <==> Stop !in steps)
      && (s.workers[i].ReadingQueue? || s.workers[i].Exited? ==> !s.running)
      && (s.workers[i].Exited? ==> Sent(n, Calls(Before(steps)), i) <= s.done[i])
    decreases |steps|
  {
    hide Calls, Sent, Do, WorkStep;
    if steps != [] {
      var m := |steps| - 1;
      var front := steps[..m];
      assert steps == front + [steps[m]];
      ExitedHasDrained(n, front, i);
      Flow(n, front, i);
      SentBefore(n, front, i);
      LeavesWhenEmpty(After(n, front), n, steps[m], i);
      if Stop in front {
        assert Before(steps) == Before(front);
      }
    }
  }

  lemma LeavesWhenEmpty(s: System, n: nat, step: Step, i: nat)
    requires 0 < n && s.Fits(n) && i < n
    ensures
      var r := Do(s, n, step);
      && r.running == (s.running && step != Stop)
      && (r.workers[i].ReadingQueue? ==> s.workers[i].ReadingQueue? || !s.running)
      && (r.workers[i].Exited? ==> s.done[i] == r.done[i])
      && (r.workers[i].Exited? ==> s.workers[i].Exited? || (s.workers[i].ReadingQueue? && s.queues[i] == []))
  {
    hide Permits, Handle;
    if step != Work(i) && !step.Submit? {
      FlowElsewhere(s, n, step, i);
    }
  }

  /** Once a worker has left, nothing that is submitted to it is ever executed. */
  lemma {:induction false} ExitedForGood(n: nat, steps: seq<Step>, more: seq<Step>, i: nat)
    requires i < n && After(n, steps).workers[i].Exited?
    ensures After(n, steps + more).workers[i].Exited? && After(n, steps + more).done[i] == After(n, steps).done[i]
    decreases |more|
  {
    hide Do;
    if more == [] {
      assert steps + more == steps;
    } else {
      var m := |more| - 1;
      ExitedForGood(n, steps, more[..m], i);
      assert (steps + more)[..|steps + more| - 1] == steps + more[..m];
      StaysGone(After(n, steps + more[..m]), n, more[m], i);
    }
  }

  lemma StaysGone(s: System, n: nat, step: Step, i: nat)
    requires s.Fits(n) && i < n && s.workers[i].Exited?
    ensures Do(s, n, step).workers[i].Exited? && Do(s, n, step).done[i] == s.done[i]
  {
    hide Permits, Handle;
  }

  lemma AfterStep(n: nat, steps: seq<Step>, step: Step)
    requires 0 < n
    ensures After(n, steps + [step]) == Do(After(n, steps), n, step)
  {
    assert (steps + [step])[..|steps|] == steps;
  }

  /**
   A worker that leaves after the given steps has executed exactly what its queue was sent up to then, stop or
   no stop; whatever it is sent later waits in the queue for ever, and all is executed only if that is nothing.
   */
  lemma LeavingDecides(n: nat, steps: seq<Step>, more: seq<Step>, i: nat)
    requires i < n && !After(n, steps).workers[i].Exited? && After(n, steps + [Work(i)]).workers[i].Exited?
    ensures
      var all := steps + [Work(i)] + more;
      var s := After(n, all);
      && s.done[i] == Sent(n, Calls(steps), i)
      && s.done[i] + s.queues[i] == Sent(n, Calls(all), i)
      && (s.done[i] == Sent(n, Calls(all), i) <==> Sent(n, Calls(all), i) == Sent(n, Calls(steps), i))
  {
    hide Calls, Sent, Do, After;
    var left := steps + [Work(i)];
    AfterStep(n, steps, Work(i));
    Flow(n, steps, i);
    Flow(n, left + more, i);
    LeavesWhenEmpty(After(n, steps), n, Work(i), i);
    ExitedForGood(n, left, more, i);
  }

  /** Every worker found gone has left at one of its own turns. */
  lemma {:induction false} LeftAtSomeTurn(n: nat, steps: seq<Step>, i: nat) returns (k: nat)
    requires i < n && After(n, steps).workers[i].Exited?
    ensures k < |steps| && steps[k] == Work(i)
    ensures !After(n, steps[..k]).workers[i].Exited? && After(n, steps[..k] + [Work(i)]).workers[i].Exited?
    decreases |steps|
  {
    hide Do;
    NobodyGone(n, i);
    var m := |steps| - 1;
    var front := steps[..m];
    assert steps == front + [steps[m]];
    if After(n, front).workers[i].Exited? {
      k := LeftAtSomeTurn(n, front, i);
      assert front[..k] == steps[..k];
    } else {
      k := m;
      AfterStep(n, front, steps[m]);
      OthersStay(After(n, front), n, steps[m], i);
    }
  }

  lemma NobodyGone(n: nat, i: nat)
    requires i < n
    ensures !After(n, []).workers[i].Exited?
  {
  }

  lemma OthersStay(s: System, n: nat, step: Step, i: nat)
    requires s.Fits(n) && i < n
    ensures step != Work(i) ==> Do(s, n, step).workers[i] == s.workers[i]
  {
    hide Permits, Handle;
    if !step.Submit? && step != Work(i) {
      FlowElsewhere(s, n, step, i);
    }
  }

  /** One worker, stopped, reads the flag and the empty queue and leaves; then a call comes. */
  const LATE_CALL := [Stop] + [Work(0)] + [Work(0)] + [Submit(AddBook(7))]

  lemma LateState()
    ensures
      var s := After(1, LATE_CALL);
      s.workers[0] == Exited && s.done[0] == [] && s.queues[0] == [Job(0, AddBook(7))]
  {
    hide Permits, Handle;
    assert [] + [Stop] == [Stop];
    AfterStep(1, [], Stop);
    AfterStep(1, [Stop], Work(0));
    AfterStep(1, [Stop] + [Work(0)], Work(0));
    AfterStep(1, [Stop] + [Work(0)] + [Work(0)], Submit(AddBook(7)));
  }

  /** Whatever happens later, that call's job stays at the head of its queue for ever. */
  lemma LateCallWaits(more: seq<Step>)
    ensures
      var s, job := After(1, LATE_CALL + more), Job(0, AddBook(7));
      s.workers[0] == Exited && s.done[0] == [] && s.queues[0] != [] && s.queues[0][0] == job
  {
    hide After, Calls, Sent;
    var all := LATE_CALL + more;
    LateState();
    ExitedForGood(1, LATE_CALL, more, 0);
    Flow(1, LATE_CALL, 0);
    Flow(1, all, 0);
    assert all[..|LATE_CALL|] == LATE_CALL;
    CallsPrefix(all, |LATE_CALL|);
    var k := |Calls(LATE_CALL)|;
    assert Calls(all)[..k] == Calls(LATE_CALL);
    SentGrows(1, Calls(all), k, 0);
    QueueHead(Sent(1, Calls(LATE_CALL), 0), Sent(1, Calls(all), 0), After(1, all).queues[0], Job(0, AddBook(7)));
  }

  lemma QueueHead(sent: seq<Job>, later: seq<Job>, queue: seq<Job>, job: Job)
    requires sent == [] + [] + [job] && sent <= later && [] + [] + queue == later
    ensures queue != [] && queue[0] == job
  {
    assert queue == later && sent == [job];
  }

  /**
   When all workers have left after a shutdown that no call has followed, every task
   has been executed exactly once and the handlers together hold exactly the
   sequential market's books, events included.
   */
  lemma AllExitedIsSequential(n: nat, steps: seq<Step>)
    requires 0 < n && Permitted(Calls(steps)) && Calls(Before(steps)) == Calls(steps)
    requires forall i :: 0 <= i < n ==> After(n, steps).workers[i].Exited?
    ensures
      var s, calls := After(n, steps), Calls(steps);
      && s.routes.Keys == Final(calls).Keys
      && (forall i :: 0 <= i < n ==> s.queues[i] == [] && s.done[i] == Sent(n, calls, i))
      && (forall i :: 0 <= i < n ==> s.handlers[i] == Part(Final(calls), s.routes, i))
      && (forall symbol :: symbol in Final(calls) ==> SameBook(s.handlers[s.routes[symbol]], Final(calls), symbol))
      && (forall symbol :: symbol in Final(calls) ==>
        Reaches(EmptyBook, Ops(OfSymbol(calls, symbol)), s.handlers[s.routes[symbol]][symbol]))
  {
    hide Permits, Handle, Do, Calls, Sent, Permitted, Final, Tasks, Reaches, Ops, OfSymbol;
    var s, calls := After(n, steps), Calls(steps);
    RoutesKnow(n, calls);
    ClientSide(n, steps);
    forall i | 0 <= i < n
      ensures s.queues[i] == [] && s.done[i] == Sent(n, calls, i) && s.handlers[i] == Part(Final(calls), s.routes, i)
    {
      ExitedHasDrained(n, steps, i);
      Flow(n, steps, i);
      HandlersReplay(n, steps, i);
      SentMakesPart(n, calls, i);
    }
    forall symbol | symbol in Final(calls)
      ensures Reaches(EmptyBook, Ops(OfSymbol(calls, symbol)), s.handlers[s.routes[symbol]][symbol])
    {
      BookIsItsOperations(calls, symbol);
      assert SameBook(s.handlers[s.routes[symbol]], Final(calls), symbol);
    }
  }

  // ------------------------------------------------------------ workers finish

  function Turns(steps: seq<Step>, i: nat): nat {
    if steps == [] then 0 else var m := |steps| - 1; Turns(steps[..m], i) + if steps[m] == Work(i) then 1 else 0
  }

  /** How many more steps a worker needs after a stop. */
  function Need(s: System, n: nat, i: nat): nat
    requires s.Fits(n) && i < n
  {
    var left := 4 * |s.queues[i]|;
    match s.workers[i]
    case Exited => 0
    case ReadingQueue => left + 1
    case ReadingFlag => left + 2
    case Popping => if left == 0 then 3 else left
    case Executing(_) => left + 3
  }

  lemma StepNeeds(s: System, n: nat, step: Step, i: nat)
    requires 0 < n && s.Fits(n) && i < n && !s.running && !step.Submit?
    requires s.workers[i].Executing? ==> s.workers[i].job.handler == i && Permits(s.handlers[i], s.workers[i].job.task)
    ensures
      var need := Need(s, n, i);
      Need(Do(s, n, step), n, i) <= if step == Work(i) && need > 0 then need - 1 else need
  {
    hide Permits, Handle;
    if step != Work(i) {
      FlowElsewhere(s, n, step, i);
    }
  }

  lemma {:induction false} NeedFalls(n: nat, steps: seq<Step>, more: seq<Step>, i: nat)
    requires i < n && Stop in steps && Permitted(Calls(steps)) && Calls(steps + more) == Calls(steps)
    requires forall step :: step in more ==> !step.Submit?
    ensures Need(After(n, steps + more), n, i) + Turns(more, i) <= Need(After(n, steps), n, i)
      || Need(After(n, steps + more), n, i) == 0
    decreases |more|
  {
    hide Permits, Handle, Do, Need, Permitted;
    if more == [] {
      assert steps + more == steps;
    } else {
      var m := |more| - 1;
      var front := steps + more[..m];
      assert (steps + more)[..|steps + more| - 1] == front;
      NeedFalls(n, steps, more[..m], i);
      ExitedHasDrained(n, front, i);
      assert Stop in front;
      var k := EveryMoment(n, front, i);
      StepNeeds(After(n, front), n, more[m], i);
    }
  }

  /** After a stop, a worker that gets its turn often enough leaves, however the turns fall. */
  lemma WorkersFinish(n: nat, steps: seq<Step>, more: seq<Step>, i: nat)
    requires i < n && Stop in steps && Permitted(Calls(steps))
    requires forall step :: step in more ==> !step.Submit?
    requires Need(After(n, steps), n, i) <= Turns(more, i)
    ensures After(n, steps + more).workers[i].Exited?
  {
    hide Permitted, Do;
    NoNewCalls(steps, more);
    NeedFalls(n, steps, more, i);
  }

  lemma {:induction false} NoNewCalls(steps: seq<Step>, more: seq<Step>)
    requires forall step :: step in more ==> !step.Submit?
    ensures Calls(steps + more) == Calls(steps)
    decreases |more|
  {
    if more == [] {
      assert steps + more == steps;
    } else {
      var m := |more| - 1;
      NoNewCalls(steps, more[..m]);
      assert (steps + more)[..|steps + more| - 1] == steps + more[..m];
    }
  }

  // ------------------------------------------------------------ balance

  /** The symbols of one handler. */
  function Share(routes: map<nat, nat>, i: nat): set<nat> {
    set symbol | symbol in routes && routes[symbol] == i
  }

  lemma ShareGrows(routes: map<nat, nat>, symbol: nat, j: nat, i: nat)
    requires symbol !in routes
    ensures |Share(routes[symbol := j], i)| == |Share(routes, i)| + if i == j then 1 else 0
  {
    if i == j {
      assert Share(routes[symbol := j], i) == Share(routes, i) + {symbol};
    } else {
      assert Share(routes[symbol := j], i) == Share(routes, i);
    }
  }

  /** The symbols after whole rounds over the handlers and a last round up to the next one. */
  predicate Dealt(n: nat, routes: map<nat, nat>, next: nat, rounds: nat) {
    forall i :: 0 <= i < n ==> |Share(routes, i)| == rounds + if i < next then 1 else 0
  }

  /** Every handler has had the same number of turns, those before the next one once more. */
  lemma {:induction false} RoundRobin(n: nat, calls: seq<Task>) returns (rounds: nat)
    requires 0 < n && Permitted(calls)
    ensures NextQueue(n, calls) < n && Dealt(n, Routes(n, calls), NextQueue(n, calls), rounds)
    decreases |calls|
  {
    hide Share, Advanced, Final, Permitted;
    if calls == [] {
      rounds := 0;
      NoShare();
    } else {
      var m := |calls| - 1;
      var front := calls[..m];
      assert calls == front + [calls[m]];
      PermittedPrefix(calls, m);
      rounds := RoundRobin(n, front);
      OneMoreCall(n, front, calls[m], 0);
      if calls[m].AddBook? {
        NewSymbol(n, front, calls[m]);
        NextTurn(n, NextQueue(n, front), calls[m]);
        rounds := RoundGrows(n, Routes(n, front), calls[m].symbol, NextQueue(n, front), rounds);
      } else {
        KeepsTurn(n, NextQueue(n, front), calls[m]);
      }
    }
  }

  lemma NewSymbol(n: nat, front: seq<Task>, t: Task)
    requires 0 < n && Permitted(front + [t]) && t.AddBook?
    ensures Permitted(front) && t.symbol !in Routes(n, front)
  {
    hide Handle;
    assert (front + [t])[..|front|] == front;
    RoutesKnow(n, front);
  }

  lemma NextTurn(n: nat, next: nat, t: Task)
    requires next < n && t.AddBook?
    ensures Advanced(next, n, t) == if next + 1 == n then 0 else next + 1
  {
  }

  lemma KeepsTurn(n: nat, next: nat, t: Task)
    requires 0 < n && !t.AddBook?
    ensures Advanced(next, n, t) == next
  {
  }

  lemma RoundGrows(n: nat, routes: map<nat, nat>, symbol: nat, next: nat, rounds: nat) returns (rounds': nat)
    requires next < n && symbol !in routes
    requires Dealt(n, routes, next, rounds)
    ensures Dealt(n, routes[symbol := next], if next + 1 == n then 0 else next + 1, rounds')
  {
    hide Share;
    rounds' := if next + 1 == n then rounds + 1 else rounds;
    var dealt := routes[symbol := next];
    forall i | 0 <= i < n
      ensures |Share(dealt, i)| == rounds' + if i < (if next + 1 == n then 0 else next + 1) then 1 else 0
    {
      ShareGrows(routes, symbol, next, i);
    }
  }

  lemma NoShare()
    ensures forall i :: Share(map[], i) == {}
  {
  }

  /** After any run without deletions the handlers' numbers of symbols differ by at most one. */
  lemma Balanced(n: nat, steps: seq<Step>, i: nat, j: nat)
    requires i < n && j < n && Permitted(Calls(steps))
    ensures |Share(After(n, steps).routes, i)| <= |Share(After(n, steps).routes, j)| + 1
  {
    ClientSide(n, steps);
    var rounds := RoundRobin(n, Calls(steps));
  }
}
