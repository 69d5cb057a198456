/**
 Runs of the machine at both grain sizes: arbitrary interleavings of statements,
 and sequences of requests served one after the other.
 */
module Runs {
  import opened Permissions
  import opened Requests
  import opened Schema
  import opened Shapes
  import opened Transactions

  // ---- Interleaved ----

  datatype System = System(db: Tables, registry: set<string>, threads: map<nat, Thread>)

  datatype Event =
    | Launch(tid: nat, token: string, req: Request)
    | Advance(tid: nat, e: Env)
    | Register(resource: string, action: string)

  ghost function Occur(prefix: string, s: System, ev: Event): System {
    match ev
    case Launch(tid, token, req) =>
      if tid in s.threads then s else s.(threads := s.threads[tid := Launched(token, req)])
    case Advance(tid, e) =>
      if tid !in s.threads then s else
      var n := Step(prefix, s.registry, s.db, s.threads[tid], e);
      s.(db := ApplyAll(s.db, n.writes), threads := s.threads[tid := n.thread])
    case Register(resource, action) =>
      match Registered(s.registry, resource, action)
      case None => s
      case Some(next) => s.(registry := next)
  }

  ghost function Run(prefix: string, s: System, evs: seq<Event>): System
    decreases |evs|
  {
    if evs == [] then s else Run(prefix, Occur(prefix, s, evs[0]), evs[1..])
  }

  lemma {:induction false} RunConcat(prefix: string, s: System, a: seq<Event>, b: seq<Event>)
    ensures Run(prefix, s, a + b) == Run(prefix, Run(prefix, s, a), b)
    decreases |a|
  {
    hide Occur;
    if a == [] {
      assert a + b == b;
    } else {
      RunConcat(prefix, Occur(prefix, s, a[0]), a[1..], b);
      assert (a + b)[1..] == a[1..] + b;
    }
  }

  lemma RunOne(prefix: string, s: System, ev: Event)
    ensures Run(prefix, s, [ev]) == Occur(prefix, s, ev)
  {
    hide Occur;
    assert Run(prefix, Occur(prefix, s, ev), [ev][1..]) == Occur(prefix, s, ev);
  }

  // ---- Atomic ----

  datatype Outcome = Outcome(db: Tables, status: nat, credential: string)

  /** Run one thread to its response with nothing in between. */
  ghost function Finish(prefix: string, registry: set<string>, db: Tables, t: Thread, e: Env): Outcome
    decreases Rank(t)
  {
    if t.Done? then Outcome(db, t.status, t.credential)
    else
      var n := Step(prefix, registry, db, t, e);
      StepShape(prefix, registry, db, t, e);
      Finish(prefix, registry, ApplyAll(db, n.writes), n.thread, e)
  }

  /** A request served atomically, with the registry of the moment. */
  datatype Job = Job(token: string, req: Request, registry: set<string>, e: Env)

  ghost function Serve(prefix: string, db: Tables, job: Job): Outcome {
    Finish(prefix, job.registry, db, Launched(job.token, job.req), job.e)
  }

  ghost function ServeAll(prefix: string, db: Tables, jobs: seq<Job>): Tables
    decreases |jobs|
  {
    if jobs == [] then db else ServeAll(prefix, Serve(prefix, db, jobs[0]).db, jobs[1..])
  }

  /** The clock never runs backwards within or between requests. */
  ghost predicate Clocked(jobs: seq<Job>, start: nat) {
    && (forall i :: 0 <= i < |jobs| ==> start <= jobs[i].e.now <= jobs[i].e.later)
    && (forall i, j :: 0 <= i < j < |jobs| ==> jobs[i].e.later <= jobs[j].e.now)
  }
}
