/**
 * The queue driver: `dispatch` classifies the intent and issues exactly one
 * backend call; `remove` and `clear` forward to the backend and settle with
 * its callback. The backend is an append-only log of the calls it received.
 */
module Driver {
  import opened Wrappers
  import opened Strings
  import opened Scheduling
  import opened Settlement

  /** A call the driver makes on the kue-scheduler backend. */
  datatype BackendCall<KueJob, Criteria> =
    | Now(job: KueJob)
    | Every(expr: string, job: KueJob)
    | Schedule(when: string, job: KueJob)
    | RemoveJobs(criteria: Criteria)
    | ClearAll

  /** The backend call that carries out `intent` for `kueJob`. */
  function CallFor<KueJob, Criteria>(intent: Intent, kueJob: KueJob): (c: BackendCall<KueJob, Criteria>)
    ensures c.Now? || c.Every? || c.Schedule?
    ensures c.job == kueJob
    ensures c.Now? <==> intent.Immediate?
    ensures c.Every? <==> intent.Recurring?
    ensures c.Every? ==> c.expr == intent.expr
    ensures c.Schedule? ==> c.when == intent.when
  {
    match intent
    case Immediate => Now(kueJob)
    case Recurring(expr) => Every(expr, kueJob)
    case Delayed(when) => Schedule(when, kueJob)
  }

  /**
   * The call `dispatch(job, when)` makes, stated against the intent string:
   * "now" (or an omitted `when`) enqueues immediately, a string holding "every"
   * or "*" registers a recurring job with its first "every " removed, and any
   * other string is scheduled unchanged.
   */
  lemma DispatchCall<KueJob, Criteria>(when: Option<string>, kueJob: KueJob)
    ensures var w := EffectiveWhen(when);
      var c: BackendCall<KueJob, Criteria> := CallFor(Classify(w), kueJob);
      c.job == kueJob &&
      (c.Now? <==> w == "now") &&
      (c.Every? <==> w != "now" && (Contains(w, "every") || Contains(w, "*"))) &&
      (c.Every? ==> c.expr == ReplaceFirst(w, "every ", "")) &&
      (c.Schedule? <==> w != "now" && !Contains(w, "every") && !Contains(w, "*")) &&
      (c.Schedule? ==> c.when == w)
  {
  }

  class Queue<Job, KueJob, Criteria> {
    /** The JobMaker chain `setAppJob(job).setQueue(queue).process().getFinalJob()`. */
    const convert: Job -> KueJob
    /** Every call made on the backend, oldest first. */
    var calls: seq<BackendCall<KueJob, Criteria>>

    constructor (convert: Job -> KueJob)
      ensures this.convert == convert
      ensures calls == []
    {
      this.convert := convert;
      calls := [];
    }

    /**
     * `dispatch(job, when = "now")`: converts the job, issues exactly the one
     * backend call its intent selects, leaves earlier calls as they were, and
     * returns the job it was given (not the converted one).
     */
    method Dispatch(job: Job, when: Option<string>) returns (r: Job)
      modifies this
      ensures r == job
      ensures calls == old(calls) + [CallFor(Classify(EffectiveWhen(when)), convert(job))]
    {
      var kueJob := convert(job);
      var w := if when.Some? then when.value else "now";
      if w == "now" {
        calls := calls + [Now(kueJob)];
      } else if Contains(w, "every") || Contains(w, "*") {
        w := ReplaceFirst(w, "every ", "");
        calls := calls + [Every(w, kueJob)];
      } else {
        calls := calls + [Schedule(w, kueJob)];
      }
      r := job;
    }

    /**
     * `remove(job)`: asks the backend to remove what `criteria` selects and
     * settles with the backend's callback arguments `error` and `response`.
     */
    method Remove<R, E>(criteria: Criteria, error: Option<E>, response: R) returns (outcome: Settlement<R, E>)
      modifies this
      ensures calls == old(calls) + [RemoveJobs(criteria)]
      ensures outcome == Settle(error, response)
    {
      calls := calls + [RemoveJobs(criteria)];
      outcome := Settle(error, response);
    }

    /**
     * `clear()`: asks the backend to clear the queue and settles with the
     * backend's callback arguments `error` and `response`.
     */
    method Clear<R, E>(error: Option<E>, response: R) returns (outcome: Settlement<R, E>)
      modifies this
      ensures calls == old(calls) + [ClearAll]
      ensures outcome == Settle(error, response)
    {
      calls := calls + [ClearAll];
      outcome := Settle(error, response);
    }
  }
}
