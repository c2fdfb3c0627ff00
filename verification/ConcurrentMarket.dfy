/** The concurrent market as objects whose methods are the atomic steps of its threads. */
module ConcurrentMarket {
  import opened BookModel
  import opened Markets
  import opened MarketSteps
  import opened BookHandlers
  import opened Words

  /** A queue between threads; each method holds the lock throughout. */
  class Queue<T> {
    var queue: seq<T>

    constructor ()
      ensures queue == []
    {
      queue := [];
    }

    method Push(data: T)
      modifies this
      ensures queue == old(queue) + [data]
    {
      queue := queue + [data];
    }

    method TryPop() returns (data: Option<T>)
      modifies this
      ensures old(queue) == [] ==> data == None && queue == []
      ensures old(queue) != [] ==> data == Some(old(queue)[0]) && queue == old(queue)[1..]
    {
      if queue == [] {
        return None;
      }
      data := Some(queue[0]);
      queue := queue[1..];
    }

    predicate Empty()
      reads this
    {
      queue == []
    }
  }

  class ConcurrentMarket {
    const n: nat
    const queues: seq<Queue<Job>>
    const handlers: seq<OrderBookHandler>
    var workers: seq<Worker>
    var running: bool
    var routes: map<nat, nat>
    var next: nat
    ghost var steps: seq<Step>  // all that has happened so far

    ghost predicate Apart()
      reads handlers
    {
      && 0 < n && |queues| == |handlers| == n
      && (forall i, j :: 0 <= i < j < n ==> queues[i] != queues[j] && handlers[i] != handlers[j])
      && (forall i, j :: 0 <= i < j < n ==> handlers[i].repr !! handlers[j].repr)
      && (forall i, j :: 0 <= i < n && 0 <= j < n ==> queues[i] !in handlers[j].repr)
      && (forall i, j :: 0 <= i < n && 0 <= j < n ==> handlers[i] !in handlers[j].repr)
      && (forall i :: 0 <= i < n ==> this !in handlers[i].repr)
    }

    ghost predicate HandlersHold(books: seq<map<nat, Book>>)
      reads handlers, set h, o | h in handlers && o in h.repr :: o
    {
      && |books| == |handlers|
      && forall i :: 0 <= i < |handlers| ==> handlers[i].Valid() && handlers[i].Models() == books[i]
    }

    ghost predicate QueuesHold(jobs: seq<seq<Job>>)
      reads queues
    {
      |jobs| == |queues| && forall i :: 0 <= i < |queues| ==> queues[i].queue == jobs[i]
    }

    /** The objects together are in a state of the system. */
    ghost predicate Stands(s: System)
      reads `workers, `running, `routes, `next, queues, handlers, set h, o | h in handlers && o in h.repr :: o
    {
      && Apart() && s.Fits(n)
      && workers == s.workers && running == s.running && routes == s.routes && next == s.next
      && QueuesHold(s.queues) && HandlersHold(s.handlers)
    }

    /** The objects stand where the run so far leads, and the client has kept to what the market asks. */
    ghost predicate Valid()
      reads this, queues, handlers, set h, o | h in handlers && o in h.repr :: o
    {
      0 < n && Permitted(Calls(steps)) && Stands(After(n, steps))
    }

    constructor (threads: nat)
      requires 0 < threads
      ensures Valid() && steps == [] && n == threads
    {
      var qs: seq<Queue<Job>>, hs: seq<OrderBookHandler> := [], [];
      while |qs| < threads
        invariant |qs| == |hs| <= threads
        invariant forall i :: 0 <= i < |qs| ==> qs[i].queue == [] && fresh(qs[i])
        invariant forall i :: 0 <= i < |hs| ==>
          hs[i].Valid() && hs[i].repr == {} && hs[i].Models() == map[] && fresh(hs[i])
        invariant forall i, j :: 0 <= i < j < |qs| ==> qs[i] != qs[j] && hs[i] != hs[j]
      {
        var q := new Queue<Job>();
        var h := new OrderBookHandler();
        qs, hs := qs + [q], hs + [h];
      }
      n, queues, handlers := threads, qs, hs;
      workers, running, routes, next := seq(threads, _ => ReadingFlag), true, map[], 0;
      steps := [];
    }

    lemma NextStep(step: Step)
      requires 0 < n
      ensures After(n, steps + [step]) == Do(After(n, steps), n, step)
      ensures Calls(steps + [step]) == if step.Submit? then Calls(steps) + [step.task] else Calls(steps)
    {
      assert (steps + [step])[..|steps|] == steps;
    }

    /** Puts a job into a queue of the pool. */
    method SubmitTask(i: nat, job: Job, ghost s: System)
      requires Stands(s) && i < n
      modifies queues[i]
      ensures Stands(s.(queues := s.queues[i := s.queues[i] + [job]])) && Apart()
    {
      hide HandlersHold;
      queues[i].Push(job);
    }

    /** A new symbol: the next queue in turn is the one its tasks will go to. */
    method AddSymbol(symbol: nat)
      requires Valid() && Permits(Final(Calls(steps)), AddBook(symbol))
      modifies this, queues
      ensures Valid() && steps == old(steps) + [Submit(AddBook(symbol))]
    {
      hide WorkStep, After, Calls, Permits, Final, Permitted, QueuesHold, HandlersHold;
      NextStep(Submit(AddBook(symbol)));
      PermittedAppend(Calls(steps), AddBook(symbol));
      var i := next;
      SubmitTask(i, Job(i, AddBook(symbol)), After(n, steps));
      if symbol !in routes {
        routes := routes[symbol := i];
      }
      next := (i + 1) % n;
      steps := steps + [Submit(AddBook(symbol))];
    }

    /** The queue of a symbol, the first for an unknown one. */
    function SubmissionIndex(symbol: nat): nat
      reads this
    {
      if symbol in routes then routes[symbol] else 0
    }

    /** Submits an operation, bound to the symbol's handler, as each of the six calls does. */
    method Call(t: Task)
      requires Valid() && t.Operate? && Permits(Final(Calls(steps)), t)
      modifies this, queues
      ensures Valid() && steps == old(steps) + [Submit(t)]
    {
      hide Do, After, Calls, Permits, Final, Permitted, QueuesHold, HandlersHold;
      ghost var s := After(n, steps);
      NextStep(Submit(t));
      PermittedAppend(Calls(steps), t);
      CallOnlyQueues(s, n, t);
      var i := SubmissionIndex(t.symbol);
      SubmitTask(i, Job(i, t), s);
      steps := steps + [Submit(t)];
    }

    /** Tells the workers to leave once their queues are empty. */
    method Shutdown()
      requires Valid()
      modifies this
      ensures Valid() && steps == old(steps) + [Stop]
    {
      hide WorkStep, After, Calls, Permits, Final, Permitted, QueuesHold, HandlersHold;
      NextStep(Stop);
      running := false;
      steps := steps + [Stop];
    }

    /** Runs a job on a worker's own handler. */
    method Execute(i: nat, job: Job, ghost s: System)
      requires Stands(s) && i < n && job.handler == i && Permits(s.handlers[i], job.task)
      modifies handlers[i], handlers[i].repr
      ensures Stands(s.(handlers := s.handlers[i := Handle(s.handlers[i], job.task)]))
    {
      hide Permits, Handle, OrderBookHandler.Valid, OrderBookHandler.Models;
      handlers[job.handler].Execute(job.task);
    }

    /** The next step of a worker in its loop. */
    method WorkerStep(i: nat)
      requires Valid() && i < n
      modifies this, queues[i], handlers[i], handlers[i].repr
      ensures Valid() && steps == old(steps) + [Work(i)]
    {
      hide After, Calls, Permits, Handle, Permitted, HandlersHold;
      ghost var s := After(n, steps);
      NextStep(Work(i));
      match workers[i] {
        case ReadingFlag =>
          workers := workers[i := if running then Popping else ReadingQueue];
        case ReadingQueue =>
          workers := workers[i := if queues[i].Empty() then Exited else Popping];
        case Popping =>
          var job := queues[i].TryPop();
          workers := workers[i := if job.None? then ReadingFlag else Executing(job.value)];
        case Executing(job) =>
          ghost var k := EveryMoment(n, steps, i);
          Execute(i, job, s);
          workers := workers[i := ReadingFlag];
        case Exited =>
      }
      steps := steps + [Work(i)];
    }
  }

  /** A call about a symbol puts one job into one queue and changes nothing else. */
  lemma CallOnlyQueues(s: System, n: nat, t: Task)
    requires 0 < n && s.Fits(n) && t.Operate?
    ensures
      var i := if t.symbol in s.routes then s.routes[t.symbol] else 0;
      Do(s, n, Submit(t)) == s.(queues := s.queues[i := s.queues[i] + [Job(i, t)]])
  {
  }
}
