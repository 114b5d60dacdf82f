/** The trigger builders of the cbctl command (cmd/cbctl/main.go). */
module CbctlMain {
  import opened Wrappers
  import opened Errors
  import opened CloudbuildTypes

  /** formatDesc: the tag takes precedence over the branch; with neither the
      Go code panics, so one of them is required. */
  function FormatDesc(tag: string, branch: string): (d: string)
    requires tag != "" || branch != ""
    ensures tag != "" ==> d == "Tag matching " + tag
    ensures tag == "" ==> d == "Push to branch matching " + branch
  {
    if tag != "" then "Tag matching " + tag else "Push to branch matching " + branch
  }

  /** Two descriptions agree exactly when both name the same tag, or both
      name no tag and the same branch. */
  lemma FormatDescInjective(tag: string, branch: string, tag': string, branch': string)
    requires tag != "" || branch != ""
    requires tag' != "" || branch' != ""
    ensures FormatDesc(tag, branch) == FormatDesc(tag', branch') <==>
      (tag != "" && tag == tag') || (tag == "" && tag' == "" && branch == branch')
  {
    var d, d' := FormatDesc(tag, branch), FormatDesc(tag', branch');
    // "Tag matching ..." and "Push to branch matching ..." differ at once.
    assert (tag != "") != (tag' != "") ==> d[0] != d'[0];
    if d == d' {
      if tag != "" && tag' != "" {
        assert tag == d[13..] == d'[13..] == tag';
      } else if tag == "" && tag' == "" {
        assert branch == d[24..] == d'[24..] == branch';
      }
    }
  }

  /** newPushTrigger: a push trigger on org/repo with the given filter. */
  function NewPushTrigger(org: string, repo: string, tag: string, branch: string, filename: string): (bt: BuildTrigger)
    requires tag != "" || branch != ""
    ensures bt.name == "push-" + org + "-" + repo + "-trigger"
    ensures bt.description == FormatDesc(tag, branch) && bt.filename == filename && !bt.disabled
    ensures bt.github == Some(GitHubEventsConfig(repo, org, Some(PushFilter(tag, branch)), None))
  {
    BuildTrigger("push-" + org + "-" + repo + "-trigger", FormatDesc(tag, branch), filename,
                 Some(GitHubEventsConfig(repo, org, Some(PushFilter(tag, branch)), None)), false)
  }

  /** newPRTrigger: a pull-request trigger on org/repo for a branch pattern. */
  function NewPRTrigger(org: string, repo: string, branch: string, filename: string): (bt: BuildTrigger)
    requires branch != ""
    ensures bt.name == "pr-" + org + "-" + repo + "-trigger"
    ensures bt.description == FormatDesc("", branch) && bt.filename == filename && !bt.disabled
    ensures bt.github == Some(GitHubEventsConfig(repo, org, None, Some(PullRequestFilter(branch))))
  {
    BuildTrigger("pr-" + org + "-" + repo + "-trigger", FormatDesc("", branch), filename,
                 Some(GitHubEventsConfig(repo, org, None, Some(PullRequestFilter(branch)))), false)
  }

  /** A push trigger's name depends on the organisation and repository only,
      so the triggers for different filters of one repository share it. */
  lemma PushTriggerNameShared(org: string, repo: string, tag: string, branch: string, filename: string,
                              tag': string, branch': string, filename': string)
    requires tag != "" || branch != ""
    requires tag' != "" || branch' != ""
    ensures NewPushTrigger(org, repo, tag, branch, filename).name == NewPushTrigger(org, repo, tag', branch', filename').name
  {
  }

  /** A push trigger and a pull-request trigger never share a name. */
  lemma TriggerKindsDistinct(org: string, repo: string, tag: string, branch: string, filename: string,
                             org': string, repo': string, branch': string, filename': string)
    requires tag != "" || branch != ""
    requires branch' != ""
    ensures NewPushTrigger(org, repo, tag, branch, filename).name != NewPRTrigger(org', repo', branch', filename').name
  {
    var p, q := NewPushTrigger(org, repo, tag, branch, filename).name, NewPRTrigger(org', repo', branch', filename').name;
    assert p[1] == 'u' && q[1] == 'r';
  }

  /** eventDesc: the branch takes precedence over the tag. The Go code
      dereferences both the events configuration and its push filter, so a
      trigger without GitHub events, or a pull-request trigger, makes the
      listing panic. */
  function EventDesc(g: Option<GitHubEventsConfig>): (r: Result<string, Error>)
    ensures r.Err? <==> g.None? || g.value.push.None?
    ensures r.Err? ==> r.error.RuntimePanic?
    ensures r == Ok("Push to branch") <==> g.Some? && g.value.push.Some? && g.value.push.value.branch != ""
    ensures r == Ok("Push new tag") <==>
      g.Some? && g.value.push.Some? && g.value.push.value.branch == "" && g.value.push.value.tag != ""
    ensures r == Ok("Unknown") <==>
      g.Some? && g.value.push.Some? && g.value.push.value.branch == "" && g.value.push.value.tag == ""
  {
    match g
    case None => Err(RuntimePanic("nil pointer dereference"))
    case Some(events) =>
      match events.push
      case None => Err(RuntimePanic("nil pointer dereference"))
      case Some(push) =>
        if push.branch != "" then Ok("Push to branch")
        else if push.tag != "" then Ok("Push new tag")
        else Ok("Unknown")
  }

  /** The listing never reports "Unknown" for a push trigger this tool
      built, and for a trigger with both a tag and a branch the listing and
      the description disagree on which one the trigger follows. */
  lemma EventDescOfPushTrigger(org: string, repo: string, tag: string, branch: string, filename: string)
    requires tag != "" || branch != ""
    ensures var bt := NewPushTrigger(org, repo, tag, branch, filename);
      EventDesc(bt.github) == Ok(if branch != "" then "Push to branch" else "Push new tag")
    ensures tag != "" && branch != "" ==>
      NewPushTrigger(org, repo, tag, branch, filename).description == "Tag matching " + tag
  {
  }

  /** Listing a pull-request trigger this tool built panics: its events
      carry no push filter. */
  lemma EventDescOfPRTrigger(org: string, repo: string, branch: string, filename: string)
    requires branch != ""
    ensures EventDesc(NewPRTrigger(org, repo, branch, filename).github).Err?
  {
  }

  /** ignore409: a conflict (the trigger exists already) is not an error;
      every other error is kept as it is. */
  function Ignore409(err: Option<Error>): (r: Option<Error>)
    ensures r.None? <==> err.None? || (err.value.ApiError? && err.value.code == StatusConflict)
    ensures r.Some? ==> r == err
  {
    match err
    case Some(ApiError(code, _)) => if code == StatusConflict then None else err
    case _ => err
  }
}
