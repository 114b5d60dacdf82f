/** The pure rules of the transfer-job reconciler (internal/stctl): the
    canonical description, the job Create sends, the test that decides
    whether a listed job already has the desired configuration, and what
    Sync decides from a listing. The Command class in module Stctl performs
    these decisions against a client; the lemmas here state what they mean. */
module StctlSpec {
  import opened Wrappers
  import opened Errors
  import opened Paging
  import opened TransferTypes
  import Text
  import Sorting

  // ---------------------------------------------------------------- description

  /** getDesc: the description that identifies a managed job. */
  function GetDesc(src: string, dest: string, start: FlagTime): (d: string)
    ensures |d| >= 24 && d[..16] == "STCTL: transfer "
  {
    "STCTL: transfer " + src + " -> " + dest + " at " + start.String()
  }

  lemma PrefixBeforeSpace(a: string, x: string, b: string, y: string)
    requires ' ' !in a && ' ' !in b
    requires |x| > 0 && x[0] == ' ' && |y| > 0 && y[0] == ' '
    requires a + x == b + y
    ensures a == b && x == y
  {
    assert a == (a + x)[..|a|] && b == (b + y)[..|b|];
    assert x == (a + x)[|a|..] && y == (b + y)[|b|..];
  }

  lemma SameLengthSuffix(u: string, c: string, v: string, d: string)
    requires u + c == v + d && |c| == |d|
    ensures u == v && c == d
  {
    assert u == (u + c)[..|u|] && v == (v + d)[..|v|];
    assert c == (u + c)[|u|..] && d == (v + d)[|v|..];
  }

  /** The description split at its fixed words, for clock texts of one length. */
  lemma DescParts(s1: string, d1: string, c1: string, s2: string, d2: string, c2: string)
    requires ' ' !in s1 && ' ' !in s2 && |c1| == |c2|
    requires "STCTL: transfer " + s1 + " -> " + d1 + " at " + c1 == "STCTL: transfer " + s2 + " -> " + d2 + " at " + c2
    ensures s1 == s2 && d1 == d2 && c1 == c2
  {
    var r1, r2 := " -> " + d1 + " at " + c1, " -> " + d2 + " at " + c2;
    var u1, u2 := "STCTL: transfer " + s1 + " -> " + d1 + " at " + c1, "STCTL: transfer " + s2 + " -> " + d2 + " at " + c2;
    assert u1 == "STCTL: transfer " + (s1 + r1);
    assert u2 == "STCTL: transfer " + (s2 + r2);
    assert s1 + r1 == u1[16..] == u2[16..] == s2 + r2;
    PrefixBeforeSpace(s1, r1, s2, r2);
    assert r1 == " -> " + ((d1 + " at ") + c1) && r2 == " -> " + ((d2 + " at ") + c2);
    assert (d1 + " at ") + c1 == r1[4..] == r2[4..] == (d2 + " at ") + c2;
    SameLengthSuffix(d1 + " at ", c1, d2 + " at ", c2);
    assert d1 == (d1 + " at ")[..|d1|] && d2 == (d2 + " at ")[..|d2|];
  }

  /** Bucket names hold no spaces; for them and for valid start times the
      description is a faithful identity key: two descriptions are equal
      exactly when source, target and start time all are. */
  lemma DescIdentity(s1: string, d1: string, t1: FlagTime, s2: string, d2: string, t2: FlagTime)
    requires ' ' !in s1 && ' ' !in s2 && t1.Valid() && t2.Valid()
    ensures GetDesc(s1, d1, t1) == GetDesc(s2, d2, t2) <==> s1 == s2 && d1 == d2 && t1 == t2
  {
    if GetDesc(s1, d1, t1) == GetDesc(s2, d2, t2) {
      Text.ClockInjective(t1.hour, t1.minute, t1.second, t2.hour, t2.minute, t2.second);
      DescParts(s1, d1, t1.String(), s2, d2, t2.String());
    }
  }

  /** Without the restriction to space-free bucket names the key is not
      faithful: an arrow inside either bucket name gives the same text. */
  lemma DescCollision(x: string, y: string, z: string, t: FlagTime)
    ensures GetDesc(x + " -> " + y, z, t) == GetDesc(x, y + " -> " + z, t)
  {
  }

  // ---------------------------------------------------------------- times

  /** fmtTime: a scheduled time of day in the notation of flagx.Time. */
  function FmtTime(t: TimeOfDay): (s: string)
    ensures 0 <= t.hours < 100 && 0 <= t.minutes < 100 && 0 <= t.seconds < 100 ==>
      |s| == 8 && s[2] == ':' && s[5] == ':'
  {
    Text.Clock(t.hours, t.minutes, t.seconds)
  }

  /** timesEqual compares the two times by their printed form. */
  predicate TimesEqual(scheduled: TimeOfDay, desired: FlagTime)
  {
    FmtTime(scheduled) == desired.String()
  }

  /** For times within a day, comparing printed forms is comparing fields. */
  lemma TimesEqualFields(scheduled: TimeOfDay, desired: FlagTime)
    requires 0 <= scheduled.hours < 100 && 0 <= scheduled.minutes < 100 && 0 <= scheduled.seconds < 100
    requires desired.Valid()
    ensures TimesEqual(scheduled, desired) <==>
      scheduled.hours == desired.hour && scheduled.minutes == desired.minute && scheduled.seconds == desired.second
  {
    Text.ClockInjective(scheduled.hours, scheduled.minutes, scheduled.seconds,
                        desired.hour, desired.minute, desired.second);
  }

  // ---------------------------------------------------------------- durations

  /** time.ParseDuration, for the forms the service writes: "0" and a whole
      number of seconds "<digits>s" that fits a time.Duration. Anything else,
      a number of seconds too large for 64 bits included, fails to parse. */
  function ParseDuration(s: string): (d: Option<int>)
    ensures d.Some? ==> 0 <= d.value <= MaxDuration && d.value % Second == 0
    ensures s == "" ==> d.None?
  {
    if s == "0" then Some(0)
    else if |s| >= 2 && s[|s| - 1] == 's' && Text.IsDigits(s[..|s| - 1])
            && Text.DigitsValue(s[..|s| - 1]) <= MaxSeconds
    then
      var n := Text.DigitsValue(s[..|s| - 1]);
      SecondsInRange(n);
      Some(n * Second)
    else None
  }

  /** Whole seconds up to MaxSeconds are time.Durations. */
  lemma SecondsInRange(n: int)
    requires 0 <= n <= MaxSeconds
    ensures 0 <= n * Second <= MaxDuration && (n * Second) % Second == 0
  {
  }

  /** The duration an age string stands for; a failed parse counts as zero. */
  function ElapsedNanos(s: string): (n: int)
    ensures n >= 0 && n % Second == 0
  {
    match ParseDuration(s)
    case Some(d) => d
    case None => 0
  }

  /** durationsMatch. */
  predicate DurationsMatch(age: int, elapsed: string)
  {
    age == ElapsedNanos(elapsed)
  }

  /** An age as a transfer condition states it: whole seconds, then "s". */
  function FormatSeconds(age: int): string
    requires age >= 0
  {
    Text.Decimal(age / Second) + "s"
  }

  /** A whole number of seconds that a time.Duration can hold survives
      formatting and parsing. */
  lemma DurationRoundTrip(age: int)
    requires 0 <= age <= MaxDuration && age % Second == 0
    ensures ParseDuration(FormatSeconds(age)) == Some(age)
  {
    var s := FormatSeconds(age);
    assert s[..|s| - 1] == Text.Decimal(age / Second);
    Text.DecimalRoundTrip(age / Second);
    assert s != "0";
  }

  /** A number of seconds too large for a time.Duration does not parse, so
      durationsMatch counts it as zero. */
  lemma DurationOverflow(n: nat)
    requires n > MaxSeconds
    ensures ParseDuration(Text.Decimal(n) + "s").None?
    ensures DurationsMatch(0, Text.Decimal(n) + "s")
  {
    var s := Text.Decimal(n) + "s";
    assert s[..|s| - 1] == Text.Decimal(n);
    Text.DecimalRoundTrip(n);
    assert s != "0";
  }

  /** An age the command line can give: a time.Duration, non-negative and
      truncated to seconds. */
  predicate WholeSeconds(age: int)
  {
    0 <= age <= MaxDuration && age % Second == 0
  }

  // ---------------------------------------------------------------- the job Create sends

  /** getSpec: buckets; object conditions only when a prefix or a positive
      age is given, each positive age as whole seconds; the delete option
      only when it is requested. */
  function GetSpec(cfg: Config): (spec: TransferSpec)
    ensures spec.gcsDataSource == cfg.sourceBucket && spec.gcsDataSink == cfg.targetBucket
    ensures spec.objectConditions.Some? <==> |cfg.prefixes| > 0 || cfg.maxFileAge > 0 || cfg.minFileAge > 0
    ensures spec.objectConditions.Some? ==> spec.objectConditions.value.includePrefixes == cfg.prefixes
    ensures JobDeleteOption(spec) == cfg.deleteAfterTransfer
  {
    TransferSpec(
      cfg.sourceBucket,
      cfg.targetBucket,
      if |cfg.prefixes| > 0 || cfg.maxFileAge > 0 || cfg.minFileAge > 0 then
        Some(ObjectConditions(
          cfg.prefixes,
          if cfg.maxFileAge > 0 then FormatSeconds(cfg.maxFileAge) else "",
          if cfg.minFileAge > 0 then FormatSeconds(cfg.minFileAge) else ""))
      else None,
      if cfg.deleteAfterTransfer then Some(TransferOptions(true)) else None)
  }

  /** The job Create asks the service to make, starting on the given date. */
  function NewJob(cfg: Config, today: Date): (job: TransferJob)
    ensures Managed(job) && job.status == "ENABLED"
    ensures job.description == GetDesc(cfg.sourceBucket, cfg.targetBucket, cfg.startTime)
    ensures job.projectId == cfg.project
    ensures job.schedule.value.scheduleStartDate == Some(today)
    ensures job.schedule.value.startTimeOfDay ==
      Some(TimeOfDay(cfg.startTime.hour, cfg.startTime.minute, cfg.startTime.second))
    ensures TimesEqual(job.schedule.value.startTimeOfDay.value, cfg.startTime)
  {
    TransferJob(
      "",
      GetDesc(cfg.sourceBucket, cfg.targetBucket, cfg.startTime),
      cfg.project,
      Some(Schedule(
        Some(today),
        None,
        Some(TimeOfDay(cfg.startTime.hour, cfg.startTime.minute, cfg.startTime.second)),
        "")),
      Some(GetSpec(cfg)),
      "ENABLED")
  }

  // ---------------------------------------------------------------- find

  /** The test find applies to each listed job. */
  function Canonical(desc: string): TransferJob -> bool
  {
    (job: TransferJob) => Managed(job) && job.description == desc
  }

  /** What find returns for a configuration and a listing. */
  function FindResult(cfg: Config, listing: seq<Fetch<TransferJob>>): (Option<TransferJob>, Option<Error>)
  {
    Scan(listing, Canonical(GetDesc(cfg.sourceBucket, cfg.targetBucket, cfg.startTime)), NoMatchingJob, None)
  }

  /** find never returns a job without a schedule, a job with an end date,
      or a job under another description. */
  lemma FindOnlyCanonical(cfg: Config, listing: seq<Fetch<TransferJob>>)
    ensures var r := FindResult(cfg, listing);
      r.0.Some? ==>
        Managed(r.0.value) && r.0.value.description == GetDesc(cfg.sourceBucket, cfg.targetBucket, cfg.startTime)
  {
  }

  /** On a one-page listing, find returns the first managed job with the
      canonical description and no error, or no job and errNotFound. */
  lemma FindOnePage(cfg: Config, jobs: seq<TransferJob>)
    ensures var desc := GetDesc(cfg.sourceBucket, cfg.targetBucket, cfg.startTime);
      var i := FirstIndex(jobs, Canonical(desc));
      FindResult(cfg, [Page(jobs)]) ==
        if i.Some? then (Some(jobs[i.value]), None) else (None, Some(NoMatchingJob))
  {
    var desc := GetDesc(cfg.sourceBucket, cfg.targetBucket, cfg.startTime);
    ScanClosedForm([Page(jobs)], Canonical(desc), NoMatchingJob, None);
  }

  /** A first page without a canonical job ends the search with errNotFound:
      later pages are never looked at. */
  lemma FindStopsAtFirstMiss(cfg: Config, listing: seq<Fetch<TransferJob>>)
    requires |listing| > 0 && listing[0].Page?
    requires forall k :: 0 <= k < |listing[0].items| ==>
      !Canonical(GetDesc(cfg.sourceBucket, cfg.targetBucket, cfg.startTime))(listing[0].items[k])
    ensures FindResult(cfg, listing) == (None, Some(NoMatchingJob))
  {
  }

  /** When every page has a canonical job, the search goes on to the end and
      the job from the last page is the one returned. */
  lemma FindLastHitWins(cfg: Config, listing: seq<Fetch<TransferJob>>)
    requires |listing| > 0
    requires forall k :: 0 <= k < |listing| ==>
      Hit(listing[k], Canonical(GetDesc(cfg.sourceBucket, cfg.targetBucket, cfg.startTime)))
    ensures FindResult(cfg, listing) ==
      (Some(HitItem(listing[|listing| - 1], Canonical(GetDesc(cfg.sourceBucket, cfg.targetBucket, cfg.startTime)))), None)
  {
    var pred := Canonical(GetDesc(cfg.sourceBucket, cfg.targetBucket, cfg.startTime));
    ScanClosedForm(listing, pred, NoMatchingJob, None);
  }

  // ---------------------------------------------------------------- specMatches

  datatype Verdict = Matches | Differs | Panics

  /** includesEqual: same length and the same strings, in any order. */
  predicate SameStrings(configured: seq<string>, desired: seq<string>)
  {
    |configured| == |desired| && multiset(configured) == multiset(desired)
  }

  /** The effective delete flag of a transfer spec. */
  predicate JobDeleteOption(spec: TransferSpec)
  {
    spec.transferOptions.Some? && spec.transferOptions.value.deleteObjectsFromSourceAfterTransfer
  }

  /** specMatches: its checks in order, with Panics where the Go code
      dereferences a nil Schedule or a nil TransferSpec. */
  function Judge(cfg: Config, job: TransferJob): (v: Verdict)
    ensures v == Panics ==> job.schedule.None? || job.transferSpec.None?
    ensures v == Matches ==>
      && job.schedule.Some? && job.transferSpec.Some?
      && job.schedule.value.repeatInterval == cfg.interval
      && JobDeleteOption(job.transferSpec.value) == cfg.deleteAfterTransfer
  {
    if job.schedule.None? then Panics
    else
      var sched := job.schedule.value;
      if sched.startTimeOfDay.None? || !TimesEqual(sched.startTimeOfDay.value, cfg.startTime) then Differs
      else if sched.repeatInterval != cfg.interval then Differs
      else if job.transferSpec.None? then Panics
      else
        var spec := job.transferSpec.value;
        var conditionsAgree :=
          match spec.objectConditions
          case None => !(|cfg.prefixes| > 0 || cfg.maxFileAge > 0 || cfg.minFileAge > 0)
          case Some(cond) =>
            SameStrings(cond.includePrefixes, cfg.prefixes)
            && DurationsMatch(cfg.maxFileAge, cond.maxTimeElapsedSinceLastModification)
            && DurationsMatch(cfg.minFileAge, cond.minTimeElapsedSinceLastModification);
        if !conditionsAgree then Differs
        else if cfg.deleteAfterTransfer != JobDeleteOption(spec) then Differs
        else Matches
  }

  /** The five rules a job must satisfy to be left alone, stated side by side. */
  predicate Agrees(cfg: Config, job: TransferJob)
  {
    && job.schedule.Some? && job.transferSpec.Some?
    && var sched, spec := job.schedule.value, job.transferSpec.value;
    // 1. a start time that prints as the desired one
    && sched.startTimeOfDay.Some? && FmtTime(sched.startTimeOfDay.value) == cfg.startTime.String()
    // 2. the same repeat interval
    && sched.repeatInterval == cfg.interval
    // 3. the same include prefixes, in any order (none when there are no conditions)
    && multiset(if spec.objectConditions.None? then [] else spec.objectConditions.value.includePrefixes)
       == multiset(cfg.prefixes)
    // 4. the same age bounds; without conditions, no positive desired age
    && (spec.objectConditions.None? ==> cfg.maxFileAge <= 0 && cfg.minFileAge <= 0)
    && (spec.objectConditions.Some? ==>
          ElapsedNanos(spec.objectConditions.value.maxTimeElapsedSinceLastModification) == cfg.maxFileAge
          && ElapsedNanos(spec.objectConditions.value.minTimeElapsedSinceLastModification) == cfg.minFileAge)
    // 5. the same effective delete flag
    && JobDeleteOption(spec) == cfg.deleteAfterTransfer
  }

  /** specMatches accepts a job exactly when the job satisfies all five rules;
      it panics exactly when the schedule is nil, or when the time and the
      interval agree and the transfer spec is nil. */
  lemma JudgeCharacterized(cfg: Config, job: TransferJob)
    ensures Judge(cfg, job) == Matches <==> Agrees(cfg, job)
    ensures Judge(cfg, job) == Panics <==>
      job.schedule.None? ||
      (job.schedule.value.startTimeOfDay.Some?
       && TimesEqual(job.schedule.value.startTimeOfDay.value, cfg.startTime)
       && job.schedule.value.repeatInterval == cfg.interval
       && job.transferSpec.None?)
  {
    if job.schedule.Some? && job.transferSpec.Some? && job.transferSpec.value.objectConditions.Some? {
      var cond := job.transferSpec.value.objectConditions.value;
      if multiset(cond.includePrefixes) == multiset(cfg.prefixes) {
        assert |cond.includePrefixes| == |multiset(cond.includePrefixes)| == |multiset(cfg.prefixes)| == |cfg.prefixes|;
      }
    }
    if job.schedule.Some? && job.transferSpec.Some? && job.transferSpec.value.objectConditions.None? {
      if multiset(cfg.prefixes) == multiset{} {
        assert |cfg.prefixes| == |multiset(cfg.prefixes)| == 0;
      } else {
        assert cfg.prefixes != [];
      }
    }
  }

  /** The job with its include prefixes replaced. */
  function WithIncludes(job: TransferJob, prefixes: seq<string>): TransferJob
    requires job.transferSpec.Some? && job.transferSpec.value.objectConditions.Some?
  {
    var spec := job.transferSpec.value;
    job.(transferSpec := Some(spec.(objectConditions := Some(spec.objectConditions.value.(includePrefixes := prefixes)))))
  }

  /** Whether specMatches reaches includesEqual with slices of equal length,
      where includesEqual sorts both slices in place. */
  predicate IncludesCompared(cfg: Config, job: TransferJob)
  {
    && job.schedule.Some?
    && job.schedule.value.startTimeOfDay.Some?
    && TimesEqual(job.schedule.value.startTimeOfDay.value, cfg.startTime)
    && job.schedule.value.repeatInterval == cfg.interval
    && job.transferSpec.Some?
    && job.transferSpec.value.objectConditions.Some?
    && |job.transferSpec.value.objectConditions.value.includePrefixes| == |cfg.prefixes|
  }

  /** The job as specMatches leaves it. */
  function AfterJudge(cfg: Config, job: TransferJob): TransferJob
  {
    if IncludesCompared(cfg, job)
    then WithIncludes(job, Sorting.SortSeq(job.transferSpec.value.objectConditions.value.includePrefixes))
    else job
  }

  /** The command's prefixes as specMatches leaves them. */
  function PrefixesAfterJudge(cfg: Config, job: TransferJob): seq<string>
  {
    if IncludesCompared(cfg, job) then Sorting.SortSeq(cfg.prefixes) else cfg.prefixes
  }

  /** The order of the prefixes, on either side, never changes the verdict;
      in particular the sorting specMatches does keeps a match a match. */
  lemma JudgeAfterSorting(cfg: Config, job: TransferJob)
    ensures Judge(cfg.(prefixes := PrefixesAfterJudge(cfg, job)), AfterJudge(cfg, job)) == Judge(cfg, job)
  {
    var cfg', job' := cfg.(prefixes := PrefixesAfterJudge(cfg, job)), AfterJudge(cfg, job);
    JudgeCharacterized(cfg, job);
    JudgeCharacterized(cfg', job');
    if IncludesCompared(cfg, job) {
      var cond := job.transferSpec.value.objectConditions.value;
      assert job'.transferSpec.value.objectConditions.value.includePrefixes == Sorting.SortSeq(cond.includePrefixes);
    }
  }

  /** The job Create sends satisfies specMatches for the same configuration,
      provided the configuration names no repeat interval (Create never sets
      one) and its ages are whole non-negative seconds. */
  lemma NewJobMatches(cfg: Config, today: Date, name: string)
    requires cfg.interval == ""
    requires WholeSeconds(cfg.maxFileAge) && WholeSeconds(cfg.minFileAge)
    ensures Judge(cfg, NewJob(cfg, today).(name := name)) == Matches
  {
    var job := NewJob(cfg, today).(name := name);
    JudgeCharacterized(cfg, job);
    if cfg.maxFileAge > 0 { DurationRoundTrip(cfg.maxFileAge); }
    if cfg.minFileAge > 0 { DurationRoundTrip(cfg.minFileAge); }
    if |cfg.prefixes| > 0 || cfg.maxFileAge > 0 || cfg.minFileAge > 0 {
      var cond := job.transferSpec.value.objectConditions.value;
      assert ElapsedNanos(cond.maxTimeElapsedSinceLastModification) == cfg.maxFileAge;
      assert ElapsedNanos(cond.minTimeElapsedSinceLastModification) == cfg.minFileAge;
    }
  }

  /** With a repeat interval configured, no job Create makes ever satisfies
      specMatches: every Sync replaces the job it made the time before. */
  lemma NewJobDiffersWithInterval(cfg: Config, today: Date, name: string)
    requires cfg.interval != ""
    ensures Judge(cfg, NewJob(cfg, today).(name := name)) == Differs
  {
  }

  // ---------------------------------------------------------------- Sync

  /** What Sync does after find: stop on a listing error, panic, keep the
      found job, replace it, or create a first job. */
  datatype Plan = ListFailed(error: Error) | Crash | Keep(job: TransferJob) | Replace(stale: TransferJob) | CreateNew

  function SyncPlan(cfg: Config, listing: seq<Fetch<TransferJob>>): Plan
  {
    var (found, err) := FindResult(cfg, listing);
    if err.Some? && err.value != NoMatchingJob then ListFailed(err.value)
    else if found.None? then CreateNew
    else match Judge(cfg, found.value)
      case Panics => Crash
      case Matches => Keep(AfterJudge(cfg, found.value))
      case Differs => Replace(found.value)
  }

  /** A kept job is a managed job under the canonical description that
      satisfies specMatches for the configuration as Sync leaves it; a
      replaced job is a managed job under that description that does not. */
  lemma SyncPlanSound(cfg: Config, listing: seq<Fetch<TransferJob>>)
    ensures var desc := GetDesc(cfg.sourceBucket, cfg.targetBucket, cfg.startTime);
      match SyncPlan(cfg, listing)
      case ListFailed(e) => e != NoMatchingJob
      case Keep(job) =>
        Managed(job) && job.description == desc && Judge(cfg.(prefixes := PrefixesAfterJudge(cfg, FindResult(cfg, listing).0.value)), job) == Matches
      case Replace(job) =>
        job == FindResult(cfg, listing).0.value && Managed(job) && job.description == desc && Judge(cfg, job) == Differs
      case _ => true
  {
    var r := FindResult(cfg, listing);
    FindOnlyCanonical(cfg, listing);
    if r.0.Some? {
      JudgeAfterSorting(cfg, r.0.value);
    }
  }

  /** Idempotence: when the one-page listing holds, as its first managed job
      under the canonical description, a job that Create made for the same
      configuration, Sync keeps that job. */
  lemma SyncKeepsCreatedJob(cfg: Config, today: Date, name: string, jobs: seq<TransferJob>, i: nat)
    requires cfg.interval == ""
    requires WholeSeconds(cfg.maxFileAge) && WholeSeconds(cfg.minFileAge)
    requires i < |jobs| && jobs[i] == NewJob(cfg, today).(name := name)
    requires forall k :: 0 <= k < i ==>
      !Canonical(GetDesc(cfg.sourceBucket, cfg.targetBucket, cfg.startTime))(jobs[k])
    ensures SyncPlan(cfg, [Page(jobs)]).Keep?
    ensures SyncPlan(cfg, [Page(jobs)]).job.name == name
  {
    var desc := GetDesc(cfg.sourceBucket, cfg.targetBucket, cfg.startTime);
    assert Canonical(desc)(jobs[i]);
    FindOnePage(cfg, jobs);
    NewJobMatches(cfg, today, name);
  }

  /** Identity by description only: a configuration that differs from the
      one a job was created for only in its prefixes (as a multiset) finds
      that job and replaces it. */
  lemma SyncReplacesOnPrefixChange(cfg: Config, today: Date, name: string, prefixes: seq<string>)
    requires multiset(prefixes) != multiset(cfg.prefixes)
    ensures var job := NewJob(cfg, today).(name := name);
      SyncPlan(cfg.(prefixes := prefixes), [Page([job])]) == Replace(job)
  {
    var cfg' := cfg.(prefixes := prefixes);
    var job := NewJob(cfg, today).(name := name);
    FindOnePage(cfg', [job]);
    assert Canonical(GetDesc(cfg'.sourceBucket, cfg'.targetBucket, cfg'.startTime))(job);
    JudgeCharacterized(cfg', job);
    if |cfg.prefixes| == 0 && cfg.maxFileAge <= 0 && cfg.minFileAge <= 0 {
      assert cfg.prefixes == [];
    }
  }

  /** Find looks at the first page only when it has no canonical job: a
      managed job further down the listing is missed and Sync creates a
      second job under the same description. */
  lemma SyncCreatesPastFirstPage(cfg: Config, first: seq<TransferJob>, rest: seq<Fetch<TransferJob>>)
    requires forall k :: 0 <= k < |first| ==>
      !Canonical(GetDesc(cfg.sourceBucket, cfg.targetBucket, cfg.startTime))(first[k])
    ensures SyncPlan(cfg, [Page(first)] + rest) == CreateNew
  {
    FindStopsAtFirstMiss(cfg, [Page(first)] + rest);
  }
}
