/** The Storage Transfer client the reconciler is given (the TransferJob
    interface of internal/stctl), as an in-memory service: a listing of
    enabled jobs split into page fetches, a table of jobs by name, errors to
    inject into Get, Update and Create, and a log of every call made. */
module TransferClient {
  import opened Wrappers
  import opened Errors
  import opened Paging
  import opened TransferTypes
  import Text

  /** The name the service assigns to the n-th job it creates. */
  function JobName(n: nat): string
  {
    "transferJobs/" + Text.Decimal(n)
  }

  lemma JobNameInjective(a: nat, b: nat)
    ensures JobName(a) == JobName(b) <==> a == b
  {
    Text.DecimalInjective(a, b);
    if JobName(a) == JobName(b) {
      assert JobName(a)[13..] == Text.Decimal(a);
      assert JobName(b)[13..] == Text.Decimal(b);
    }
  }

  class Client {
    /** What listing enabled jobs returns, one fetch per page, in order. */
    var listing: seq<Fetch<TransferJob>>
    /** The jobs the service holds, by name. */
    var jobs: map<string, TransferJob>
    /** Number of the next name the service assigns. */
    var nextId: nat
    var getErr: Option<Error>
    var updateErr: Option<Error>
    var createErr: Option<Error>
    /** The names passed to Get, the requests passed to Update and the jobs
        passed to Create, in call order. */
    var gets: seq<string>
    var updates: seq<(string, UpdateTransferJobRequest)>
    var creates: seq<TransferJob>

    /** No name the service has still to assign is taken. */
    ghost predicate Valid()
      reads this
    {
      forall i: nat :: nextId <= i ==> JobName(i) !in jobs
    }

    constructor (listing: seq<Fetch<TransferJob>>, jobs: map<string, TransferJob>, nextId: nat,
                 getErr: Option<Error>, updateErr: Option<Error>, createErr: Option<Error>)
      requires forall i: nat :: nextId <= i ==> JobName(i) !in jobs
      ensures Valid()
      ensures this.listing == listing && this.jobs == jobs && this.nextId == nextId
      ensures this.getErr == getErr && this.updateErr == updateErr && this.createErr == createErr
      ensures gets == [] && updates == [] && creates == []
    {
      this.listing, this.jobs, this.nextId := listing, jobs, nextId;
      this.getErr, this.updateErr, this.createErr := getErr, updateErr, createErr;
      gets, updates, creates := [], [], [];
    }

    /** What Get(name) answers: the injected error, the job, or 404. */
    function GetReply(name: string): Result<TransferJob, Error>
      reads this
    {
      if getErr.Some? then Err(getErr.value)
      else if name in jobs then Ok(jobs[name])
      else Err(ApiError(StatusNotFound, "job not found: " + name))
    }

    /** What Update(name, req) answers: the injected error, 404, or the job
        with the request's description, transfer spec and status applied. */
    function UpdateReply(name: string, req: UpdateTransferJobRequest): Result<TransferJob, Error>
      reads this
    {
      if updateErr.Some? then Err(updateErr.value)
      else if name !in jobs then Err(ApiError(StatusNotFound, "job not found: " + name))
      else Ok(jobs[name].(description := req.transferJob.description,
                          transferSpec := req.transferJob.transferSpec,
                          status := req.transferJob.status))
    }

    /** What Create(job) answers: the injected error, or the job under the
        next name. */
    function CreateReply(job: TransferJob): Result<TransferJob, Error>
      reads this
    {
      if createErr.Some? then Err(createErr.value) else Ok(job.(name := JobName(nextId)))
    }

    method Get(name: string) returns (r: Result<TransferJob, Error>)
      modifies this`gets
      ensures gets == old(gets) + [name]
      ensures r == GetReply(name)
    {
      gets := gets + [name];
      r := GetReply(name);
    }

    method Update(name: string, req: UpdateTransferJobRequest) returns (r: Result<TransferJob, Error>)
      requires Valid()
      modifies this`updates, this`jobs
      ensures Valid()
      ensures updates == old(updates) + [(name, req)]
      ensures r == old(UpdateReply(name, req))
      ensures jobs == if r.Ok? then old(jobs)[name := r.value] else old(jobs)
      ensures r.Ok? ==> name in old(jobs) && r.value.name == old(jobs)[name].name
    {
      updates := updates + [(name, req)];
      r := UpdateReply(name, req);
      if r.Ok? {
        jobs := jobs[name := r.value];
      }
    }

    method Create(job: TransferJob) returns (r: Result<TransferJob, Error>)
      requires Valid()
      modifies this`creates, this`jobs, this`nextId
      ensures Valid()
      ensures creates == old(creates) + [job]
      ensures r == old(CreateReply(job))
      ensures r.Ok? ==> r.value.name !in old(jobs)
      ensures jobs == if r.Ok? then old(jobs)[r.value.name := r.value] else old(jobs)
      ensures nextId == if r.Ok? then old(nextId) + 1 else old(nextId)
    {
      creates := creates + [job];
      r := CreateReply(job);
      if r.Ok? {
        var n := JobName(nextId);
        jobs := jobs[n := r.value];
        forall i: nat | nextId + 1 <= i ensures JobName(i) !in jobs {
          JobNameInjective(i, nextId);
        }
        nextId := nextId + 1;
      }
    }
  }
}
