/** The reconciler itself (internal/stctl): a Command holding the desired
    configuration and a Storage Transfer client. Its prefixes are a slice the
    comparison sorts in place, so they are an array here. */
module Stctl {
  import opened Wrappers
  import opened Errors
  import opened Paging
  import opened TransferTypes
  import opened TransferClient
  import opened StctlSpec
  import Sorting

  /** The request Disable sends: only the description, the transfer spec and
      the status "DISABLED" are set, since the service refuses a request that
      changes the schedule. */
  function DisableRequest(project: string, current: TransferJob): (req: UpdateTransferJobRequest)
    ensures req.projectId == project
    ensures req.transferJob.name == "" && req.transferJob.projectId == ""
    ensures req.transferJob.schedule.None? && req.transferJob.status == "DISABLED"
    ensures req.transferJob.description == current.description
    ensures req.transferJob.transferSpec == current.transferSpec
  {
    UpdateTransferJobRequest(project, TransferJob("", current.description, "", None, current.transferSpec, "DISABLED"))
  }

  /** The two in-place sorts of includesEqual; the slices may be one and
      the same, and sorting a sorted slice again leaves it as it is. */
  method SortBoth(configured: array<string>, desired: array<string>)
    modifies configured, desired
    ensures configured[..] == Sorting.SortSeq(old(configured[..]))
    ensures desired[..] == Sorting.SortSeq(old(desired[..]))
  {
    ghost var c0 := configured[..];
    Sorting.SortStrings(configured);
    Sorting.SortStrings(desired);
    if configured == desired {
      Sorting.SortSeqCharacterized(c0, c0);
    }
  }

  /** includesEqual: false at once on different lengths; otherwise both
      slices are sorted in place and compared element by element. */
  method IncludesEqual(configured: array<string>, desired: array<string>) returns (eq: bool)
    modifies configured, desired
    ensures eq <==> SameStrings(old(configured[..]), old(desired[..]))
    ensures configured.Length == desired.Length ==>
      configured[..] == Sorting.SortSeq(old(configured[..])) && desired[..] == Sorting.SortSeq(old(desired[..]))
    ensures configured.Length == desired.Length ==>
      Sorting.Sorted(configured[..]) && multiset(configured[..]) == multiset(old(configured[..]))
      && Sorting.Sorted(desired[..]) && multiset(desired[..]) == multiset(old(desired[..]))
    ensures configured.Length != desired.Length ==>
      configured[..] == old(configured[..]) && desired[..] == old(desired[..])
  {
    if configured.Length != desired.Length {
      return false;
    }
    ghost var c0, d0 := configured[..], desired[..];
    SortBoth(configured, desired);
    Sorting.SortSeqSorted(c0);
    Sorting.SortSeqSorted(d0);
    eq := SameSorted(configured, desired);
    Sorting.SortSeqCharacterized(c0, d0);
    assert |c0| == |d0|;
  }

  /** The element-by-element comparison of two slices of one length. */
  method SameSorted(configured: array<string>, desired: array<string>) returns (eq: bool)
    requires configured.Length == desired.Length
    ensures eq <==> configured[..] == desired[..]
  {
    var i := 0;
    while i < configured.Length
      invariant 0 <= i <= configured.Length
      invariant forall k :: 0 <= k < i ==> configured[k] == desired[k]
    {
      if configured[i] != desired[i] {
        assert configured[..][i] != desired[..][i];
        return false;
      }
      i := i + 1;
    }
    assert configured[..] == desired[..];
    return true;
  }

  /** A fresh slice holding the given strings. */
  method CopyToArray(s: seq<string>) returns (a: array<string>)
    ensures fresh(a) && a[..] == s
  {
    a := new string[|s|](i requires 0 <= i < |s| => s[i]);
  }

  class Command {
    const client: Client
    const project: string
    const sourceBucket: string
    const targetBucket: string
    /** The desired include prefixes (Command.Prefixes). */
    const prefixes: array<string>
    const startTime: FlagTime
    const interval: string
    const minFileAge: int
    const maxFileAge: int
    const deleteAfterTransfer: bool

    /** The configuration as it stands now. */
    function Cfg(): Config
      reads this, prefixes
    {
      Config(project, sourceBucket, targetBucket, prefixes[..], startTime, interval,
             minFileAge, maxFileAge, deleteAfterTransfer)
    }

    constructor (client: Client, cfg: Config)
      ensures this.client == client && Cfg() == cfg && fresh(prefixes)
    {
      this.client := client;
      project, sourceBucket, targetBucket := cfg.project, cfg.sourceBucket, cfg.targetBucket;
      startTime, interval := cfg.startTime, cfg.interval;
      minFileAge, maxFileAge, deleteAfterTransfer := cfg.minFileAge, cfg.maxFileAge, cfg.deleteAfterTransfer;
      var p := new string[|cfg.prefixes|];
      forall i | 0 <= i < |cfg.prefixes| {
        p[i] := cfg.prefixes[i];
      }
      prefixes := p;
    }

    /** specMatches. The verdict Panics stands for the nil dereference of a
        missing schedule or transfer spec; `after` is the job as the call
        leaves it, with its include prefixes sorted when they were compared. */
    method SpecMatches(job: TransferJob) returns (v: Verdict, after: TransferJob)
      modifies prefixes
      ensures v == Judge(old(Cfg()), job)
      ensures after == AfterJudge(old(Cfg()), job)
      ensures prefixes[..] == PrefixesAfterJudge(old(Cfg()), job)
    {
      after := job;
      if job.schedule.None? {
        return Panics, after;
      }
      var sched := job.schedule.value;
      if sched.startTimeOfDay.None? || !TimesEqual(sched.startTimeOfDay.value, startTime) {
        return Differs, after;
      }
      if sched.repeatInterval != interval {
        return Differs, after;
      }
      if job.transferSpec.None? {
        return Panics, after;
      }
      var spec := job.transferSpec.value;
      match spec.objectConditions {
        case None =>
          if prefixes.Length > 0 || maxFileAge > 0 || minFileAge > 0 {
            return Differs, after;
          }
        case Some(cond) =>
          var agree, includes := ConditionsAgree(cond);
          after := WithIncludes(job, includes);
          if !agree {
            return Differs, after;
          }
      }
      var jobDeleteOption := spec.transferOptions.Some? && spec.transferOptions.value.deleteObjectsFromSourceAfterTransfer;
      if deleteAfterTransfer != jobDeleteOption {
        return Differs, after;
      }
      return Matches, after;
    }

    /** The object-conditions test of specMatches, for conditions that are
        present: the include prefixes (sorted in place when their lengths
        agree, on both sides) and then the two age bounds. */
    method ConditionsAgree(cond: ObjectConditions) returns (agree: bool, includes: seq<string>)
      modifies prefixes
      ensures agree <==>
        SameStrings(cond.includePrefixes, old(prefixes[..]))
        && DurationsMatch(maxFileAge, cond.maxTimeElapsedSinceLastModification)
        && DurationsMatch(minFileAge, cond.minTimeElapsedSinceLastModification)
      ensures |cond.includePrefixes| == prefixes.Length ==>
        includes == Sorting.SortSeq(cond.includePrefixes) && prefixes[..] == Sorting.SortSeq(old(prefixes[..]))
      ensures |cond.includePrefixes| != prefixes.Length ==>
        includes == cond.includePrefixes && prefixes[..] == old(prefixes[..])
    {
      var a := CopyToArray(cond.includePrefixes);
      var same := IncludesEqual(a, prefixes);
      includes := a[..];
      agree := same
        && DurationsMatch(maxFileAge, cond.maxTimeElapsedSinceLastModification)
        && DurationsMatch(minFileAge, cond.minTimeElapsedSinceLastModification);
    }

    /** find: list the jobs, keeping the first managed job of each page under
        the canonical description. */
    method Find() returns (found: Option<TransferJob>, err: Option<Error>)
      ensures (found, err) == FindResult(Cfg(), client.listing)
    {
      found, err := Pages(client.listing, Canonical(GetDesc(sourceBucket, targetBucket, startTime)), NoMatchingJob);
    }

    /** Create: ask the service to make the job for the current configuration. */
    method Create(today: Date) returns (r: Result<TransferJob, Error>)
      requires client.Valid()
      modifies client`creates, client`jobs, client`nextId
      ensures client.Valid()
      ensures client.creates == old(client.creates) + [NewJob(Cfg(), today)]
      ensures r == old(client.CreateReply(NewJob(Cfg(), today)))
      ensures r.Ok? ==> r.value.name !in old(client.jobs)
      ensures client.jobs == if r.Ok? then old(client.jobs)[r.value.name := r.value] else old(client.jobs)
      ensures client.nextId == if r.Ok? then old(client.nextId) + 1 else old(client.nextId)
      ensures r.Ok? ==>
        Managed(r.value) && r.value.description == GetDesc(sourceBucket, targetBucket, startTime)
      ensures r.Ok? && interval == "" && WholeSeconds(maxFileAge) && WholeSeconds(minFileAge) ==>
        Judge(Cfg(), r.value) == Matches
    {
      r := client.Create(NewJob(Cfg(), today));
      if r.Ok? && interval == "" && WholeSeconds(maxFileAge) && WholeSeconds(minFileAge) {
        NewJobMatches(Cfg(), today, r.value.name);
      }
    }

    /** Disable: read the job, then mark it disabled, keeping its description
        and transfer spec. */
    method Disable(name: string) returns (r: Result<TransferJob, Error>)
      requires client.Valid()
      modifies client`gets, client`updates, client`jobs
      ensures client.Valid()
      ensures client.gets == old(client.gets) + [name]
      ensures old(client.GetReply(name)).Err? ==>
        r == old(client.GetReply(name)) && client.updates == old(client.updates) && client.jobs == old(client.jobs)
      ensures old(client.GetReply(name)).Ok? ==>
        var req := DisableRequest(project, old(client.GetReply(name)).value);
        client.updates == old(client.updates) + [(name, req)] && r == old(client.UpdateReply(name, req))
      ensures client.jobs == if r.Ok? then old(client.jobs)[name := r.value] else old(client.jobs)
      ensures r.Ok? ==>
        name in old(client.jobs) && r.value.status == "DISABLED"
        && r.value.name == old(client.jobs)[name].name
        && r.value.schedule == old(client.jobs)[name].schedule
        && r.value.description == old(client.jobs)[name].description
        && r.value.transferSpec == old(client.jobs)[name].transferSpec
    {
      var current := client.Get(name);
      if current.Err? {
        return current;
      }
      r := client.Update(name, DisableRequest(project, current.value));
    }

    /** The replacement step of Sync: disable the stale job and, when that
        succeeds, create the job for the current configuration. */
    method ReplaceJob(stale: TransferJob, today: Date) returns (r: Result<TransferJob, Error>)
      requires client.Valid()
      modifies client`gets, client`updates, client`jobs, client`creates, client`nextId
      ensures client.Valid()
      ensures var current := old(client.GetReply(stale.name));
        var disabled :=
          if current.Err? then current
          else old(client.UpdateReply(stale.name, DisableRequest(project, current.value)));
        && client.gets == old(client.gets) + [stale.name]
        && client.updates ==
             old(client.updates) + (if current.Ok? then [(stale.name, DisableRequest(project, current.value))] else [])
        && (disabled.Err? ==>
              r == Err(disabled.error) && client.creates == old(client.creates)
              && client.jobs == old(client.jobs) && client.nextId == old(client.nextId))
        && (disabled.Ok? ==>
              var job := NewJob(Cfg(), today);
              && client.creates == old(client.creates) + [job]
              && r == old(client.CreateReply(job))
              && client.jobs == (if r.Ok? then old(client.jobs)[stale.name := disabled.value][r.value.name := r.value]
                                 else old(client.jobs)[stale.name := disabled.value])
              && client.nextId == (if r.Ok? then old(client.nextId) + 1 else old(client.nextId)))
        && (r.Ok? ==>
              && stale.name in client.jobs && client.jobs[stale.name].status == "DISABLED"
              && r.value.name != stale.name)
      ensures r.Ok? ==>
        Managed(r.value) && r.value.description == GetDesc(sourceBucket, targetBucket, startTime)
      ensures r.Ok? && interval == "" && WholeSeconds(maxFileAge) && WholeSeconds(minFileAge) ==>
        Judge(Cfg(), r.value) == Matches
    {
      var disabled := Disable(stale.name);
      if disabled.Err? {
        return Err(disabled.error);
      }
      r := Create(today);
    }

    /** Sync: keep a managed job that already has the desired configuration;
        otherwise disable the job found under the description, if any, and
        create a new one. A nil-pointer panic is reported as RuntimePanic. */
    method Sync(today: Date) returns (r: Result<TransferJob, Error>)
      requires client.Valid()
      modifies prefixes, client`gets, client`updates, client`jobs, client`creates, client`nextId
      ensures client.Valid()
      ensures multiset(prefixes[..]) == multiset(old(prefixes[..]))
      ensures var cfg := old(Cfg());
        match SyncPlan(cfg, old(client.listing))
        case ListFailed(e) =>
          r == Err(e) && Cfg() == cfg && client.jobs == old(client.jobs) && client.nextId == old(client.nextId)
          && client.gets == old(client.gets) && client.updates == old(client.updates) && client.creates == old(client.creates)
        case Crash =>
          r.Err? && r.error.RuntimePanic?
          && prefixes[..] == PrefixesAfterJudge(cfg, FindResult(cfg, old(client.listing)).0.value)
          && client.jobs == old(client.jobs) && client.nextId == old(client.nextId)
          && client.gets == old(client.gets) && client.updates == old(client.updates) && client.creates == old(client.creates)
        case Keep(job) =>
          r == Ok(job)
          && prefixes[..] == PrefixesAfterJudge(cfg, FindResult(cfg, old(client.listing)).0.value)
          && client.jobs == old(client.jobs) && client.nextId == old(client.nextId)
          && client.gets == old(client.gets) && client.updates == old(client.updates) && client.creates == old(client.creates)
        case Replace(stale) =>
          var current := old(client.GetReply(stale.name));
          var disabled :=
            if current.Err? then current
            else old(client.UpdateReply(stale.name, DisableRequest(project, current.value)));
          && prefixes[..] == PrefixesAfterJudge(cfg, stale)
          && client.gets == old(client.gets) + [stale.name]
          && client.updates ==
               old(client.updates) + (if current.Ok? then [(stale.name, DisableRequest(project, current.value))] else [])
          && (disabled.Err? ==>
                r == Err(disabled.error) && client.creates == old(client.creates)
                && client.jobs == old(client.jobs) && client.nextId == old(client.nextId))
          && (disabled.Ok? ==>
                var job := NewJob(Cfg(), today);
                && client.creates == old(client.creates) + [job]
                && r == old(client.CreateReply(job))
                && client.jobs == (if r.Ok? then old(client.jobs)[stale.name := disabled.value][r.value.name := r.value]
                                   else old(client.jobs)[stale.name := disabled.value])
                && client.nextId == (if r.Ok? then old(client.nextId) + 1 else old(client.nextId)))
          && (r.Ok? ==>
                && stale.name in client.jobs && client.jobs[stale.name].status == "DISABLED"
                && r.value.name != stale.name)
        case CreateNew =>
          Cfg() == cfg && client.gets == old(client.gets) && client.updates == old(client.updates)
          && client.creates == old(client.creates) + [NewJob(cfg, today)]
          && r == old(client.CreateReply(NewJob(cfg, today)))
          && client.jobs == (if r.Ok? then old(client.jobs)[r.value.name := r.value] else old(client.jobs))
          && client.nextId == (if r.Ok? then old(client.nextId) + 1 else old(client.nextId))
      ensures r.Ok? ==>
        Managed(r.value) && r.value.description == GetDesc(sourceBucket, targetBucket, startTime)
      ensures r.Ok? && interval == "" && WholeSeconds(maxFileAge) && WholeSeconds(minFileAge) ==>
        Judge(Cfg(), r.value) == Matches
    {
      ghost var cfg := Cfg();
      var found, err := Find();
      FindOnlyCanonical(cfg, client.listing);
      if err.Some? && err.value != NoMatchingJob {
        return Err(err.value);
      }
      if found.Some? {
        var v, after := SpecMatches(found.value);
        JudgeAfterSorting(cfg, found.value);
        if v == Panics {
          return Err(RuntimePanic("invalid memory address or nil pointer dereference"));
        }
        if v == Matches {
          return Ok(after);
        }
        r := ReplaceJob(found.value, today);
      } else {
        r := Create(today);
      }
    }
  }
}
