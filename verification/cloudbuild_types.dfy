/** The Cloud Build records the trigger tools read and build (package
    cloudbuild/v1). A Go pointer field that may be nil is an Option. */
module CloudbuildTypes {
  import opened Wrappers

  datatype PushFilter = PushFilter(tag: string, branch: string)

  datatype PullRequestFilter = PullRequestFilter(branch: string)

  datatype GitHubEventsConfig = GitHubEventsConfig(
    name: string,
    owner: string,
    push: Option<PushFilter>,
    pullRequest: Option<PullRequestFilter>)

  datatype BuildTrigger = BuildTrigger(
    name: string,
    description: string,
    filename: string,
    github: Option<GitHubEventsConfig>,
    disabled: bool)
}
