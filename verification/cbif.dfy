/** The decisions of the cbif command (cmd/cbif/main.go): whether to run at
    all, which commands to run, and whether a failed command ends the
    process. The environment, the command line and the exit effect are
    parameters and results. */
module Cbif {
  import opened Wrappers
  import opened Errors
  import Text

  /** The names of the flags given on the command line or through the
      environment (foundFlags). */
  type FoundFlags = set<string>

  /** foundFlags.Assigned. */
  predicate Assigned(flags: FoundFlags, k: string)
  {
    k in flags
  }

  /** os.Getenv: the value, or "" for an unset variable. */
  function Getenv(env: map<string, string>, k: string): string
  {
    if k in env then env[k] else ""
  }

  /** shouldRun, with the project list, the branch list and the environment
      as parameters. The project condition is checked first. */
  function ShouldRun(flags: FoundFlags, projects: seq<string>, branches: seq<string>, env: map<string, string>)
    : (r: (string, bool))
    ensures r.1 <==>
      (Assigned(flags, "PROJECT_IN") ==> Getenv(env, "PROJECT_ID") in projects)
      && (Assigned(flags, "BRANCH_IN") ==> Getenv(env, "BRANCH_NAME") in branches)
    ensures Assigned(flags, "PROJECT_IN") && Getenv(env, "PROJECT_ID") !in projects ==>
      r.0 == "RUN:false PROJECT_IN=" + Text.GoSliceSyntax(projects)
        + " does not include current project (" + Getenv(env, "PROJECT_ID") + ")"
    ensures r.1 ==> |r.0| >= 8 && r.0[..8] == "RUN:true"
    ensures r.1 && !Assigned(flags, "PROJECT_IN") && !Assigned(flags, "BRANCH_IN") ==> r.0 == "RUN:true"
  {
    var project := Getenv(env, "PROJECT_ID");
    if Assigned(flags, "PROJECT_IN") && project !in projects then
      ("RUN:false PROJECT_IN=" + Text.GoSliceSyntax(projects) + " does not include current project (" + project + ")", false)
    else
      var branch := Getenv(env, "BRANCH_NAME");
      if Assigned(flags, "BRANCH_IN") && branch !in branches then
        ("RUN:false BRANCH_IN=" + Text.GoSliceSyntax(branches) + " does not include current branch (" + branch + ")", false)
      else
        (RunReason(flags, projects, branches, project, branch), true)
  }

  /** The reason shouldRun gives when it runs: "RUN:true" and a clause for
      each condition that was given. */
  function RunReason(flags: FoundFlags, projects: seq<string>, branches: seq<string>, project: string, branch: string)
    : (reason: string)
    ensures |reason| >= 8 && reason[..8] == "RUN:true"
  {
    Layout(Assigned(flags, "PROJECT_IN"), ProjectClause(projects, project),
           Assigned(flags, "BRANCH_IN"), BranchClause(branches, branch))
  }

  /** "RUN:true" followed by the clauses that are present, in order. */
  function Layout(p: bool, pClause: string, b: bool, bClause: string): (reason: string)
    ensures |reason| >= 8 && reason[..8] == "RUN:true"
  {
    var clauses := (if p then pClause else "") + (if b then bClause else "");
    PrefixOf("RUN:true", clauses);
    "RUN:true" + clauses
  }

  /** The clause a satisfied project condition adds to the reason. */
  function ProjectClause(projects: seq<string>, project: string): string
  {
    " AND PROJECT_IN=" + Text.GoSliceSyntax(projects) + " contains " + Text.GoQuote(project)
  }

  /** The clause a satisfied branch condition adds to the reason. */
  function BranchClause(branches: seq<string>, branch: string): string
  {
    " AND BRANCH_IN=" + Text.GoSliceSyntax(branches) + " contains " + Text.GoQuote(branch)
  }

  /** The reason grows by one clause for each condition that was given:
      the project clause right after "RUN:true", then the branch clause,
      which ends the reason. */
  lemma ShouldRunReasonClauses(flags: FoundFlags, projects: seq<string>, branches: seq<string>, env: map<string, string>)
    requires ShouldRun(flags, projects, branches, env).1
    ensures var reason := ShouldRun(flags, projects, branches, env).0;
      (|reason| > 8 <==> Assigned(flags, "PROJECT_IN") || Assigned(flags, "BRANCH_IN"))
      && (Assigned(flags, "PROJECT_IN") ==> |reason| >= 24 && reason[8..24] == " AND PROJECT_IN=")
      && (!Assigned(flags, "PROJECT_IN") && Assigned(flags, "BRANCH_IN") ==>
            |reason| >= 23 && reason[8..23] == " AND BRANCH_IN=")
    ensures var reason := ShouldRun(flags, projects, branches, env).0;
      var branchClause := BranchClause(branches, Getenv(env, "BRANCH_NAME"));
      var projectEnd := " contains " + Text.GoQuote(Getenv(env, "PROJECT_ID"));
      (Assigned(flags, "BRANCH_IN") ==> |reason| >= |branchClause| && reason[|reason| - |branchClause|..] == branchClause)
      && (!Assigned(flags, "BRANCH_IN") && Assigned(flags, "PROJECT_IN") ==>
            |reason| >= |projectEnd| && reason[|reason| - |projectEnd|..] == projectEnd)
  {
    var project, branch := Getenv(env, "PROJECT_ID"), Getenv(env, "BRANCH_NAME");
    assert ShouldRun(flags, projects, branches, env).0 == RunReason(flags, projects, branches, project, branch);
    RunReasonClauses(flags, projects, branches, project, branch);
  }

  lemma RunReasonClauses(flags: FoundFlags, projects: seq<string>, branches: seq<string>, project: string, branch: string)
    ensures var reason := RunReason(flags, projects, branches, project, branch);
      (|reason| > 8 <==> Assigned(flags, "PROJECT_IN") || Assigned(flags, "BRANCH_IN"))
      && (Assigned(flags, "PROJECT_IN") ==> |reason| >= 24 && reason[8..24] == " AND PROJECT_IN=")
      && (!Assigned(flags, "PROJECT_IN") && Assigned(flags, "BRANCH_IN") ==>
            |reason| >= 23 && reason[8..23] == " AND BRANCH_IN=")
    ensures var reason := RunReason(flags, projects, branches, project, branch);
      var branchClause := BranchClause(branches, branch);
      var projectEnd := " contains " + Text.GoQuote(project);
      (Assigned(flags, "BRANCH_IN") ==> |reason| >= |branchClause| && reason[|reason| - |branchClause|..] == branchClause)
      && (!Assigned(flags, "BRANCH_IN") && Assigned(flags, "PROJECT_IN") ==>
            |reason| >= |projectEnd| && reason[|reason| - |projectEnd|..] == projectEnd)
  {
    var projectList := Text.GoSliceSyntax(projects);
    var projectEnd := " contains " + Text.GoQuote(project);
    var branchRest := Text.GoSliceSyntax(branches) + " contains " + Text.GoQuote(branch);
    assert ProjectClause(projects, project) == " AND PROJECT_IN=" + projectList + projectEnd;
    assert BranchClause(branches, branch) == " AND BRANCH_IN=" + branchRest;
    assert |" AND PROJECT_IN="| == 16 && |" AND BRANCH_IN="| == 15;
    ClauseLayout(Assigned(flags, "PROJECT_IN"), " AND PROJECT_IN=", projectList, projectEnd,
                 Assigned(flags, "BRANCH_IN"), " AND BRANCH_IN=", branchRest);
  }

  /** Where the clauses of a reason sit, whatever their text. */
  lemma ClauseLayout(p: bool, pName: string, pList: string, pEnd: string, b: bool, bName: string, bRest: string)
    requires |pName| > 0 && |bName| > 0
    ensures var reason := Layout(p, pName + pList + pEnd, b, bName + bRest);
      (|reason| > 8 <==> p || b)
      && (p ==> |reason| >= 8 + |pName| && reason[8..8 + |pName|] == pName)
      && (!p && b ==> |reason| >= 8 + |bName| && reason[8..8 + |bName|] == bName)
      && (b ==> |reason| >= |bName + bRest| && reason[|reason| - |bName + bRest|..] == bName + bRest)
      && (!b && p ==> |reason| >= |pEnd| && reason[|reason| - |pEnd|..] == pEnd)
  {
    var head := "RUN:true" + (if p then pName + pList + pEnd else "");
    if p {
      assert head == "RUN:true" + pName + (pList + pEnd);
      ClauseAt(pName, pList + pEnd);
      assert head == ("RUN:true" + pName + pList) + pEnd;
      SuffixOf("RUN:true" + pName + pList, pEnd);
    } else if b {
      ClauseAt(bName, bRest);
    }
    SuffixOf(head, bName + bRest);
  }

  /** The clause after "RUN:true" starts with its name. */
  lemma ClauseAt(name: string, rest: string)
    ensures var s := "RUN:true" + name + rest;
      |s| >= 8 + |name| && s[8..8 + |name|] == name
  {
  }

  lemma PrefixOf(x: string, y: string)
    ensures (x + y)[..|x|] == x
  {
  }

  lemma SuffixOf(x: string, y: string)
    ensures (x + y)[|x + y| - |y|..] == y
  {
  }

  /** continueOrExitZero: the process exits with status 0 when it should
      not run; None means it continues. */
  function ContinueOrExitZero(flags: FoundFlags, projects: seq<string>, branches: seq<string>, env: map<string, string>)
    : (exit: Option<int>)
    ensures exit.Some? <==> !ShouldRun(flags, projects, branches, env).1
    ensures exit.Some? ==> exit.value == 0
  {
    if ShouldRun(flags, projects, branches, env).1 then None else Some(0)
  }

  /** prepareCommands. In single-command mode the arguments form one command
      (none when there are no arguments); otherwise each argument is split
      into words by split, and a failed split ends the process (None). */
  method PrepareCommands(args: seq<string>, singleCmd: bool, split: string -> Option<seq<string>>)
    returns (commands: Option<seq<seq<string>>>)
    ensures singleCmd ==> commands == Some(if |args| > 0 then [args] else [])
    ensures !singleCmd ==>
      (commands.Some? <==> forall i :: 0 <= i < |args| ==> split(args[i]).Some?)
    ensures !singleCmd && commands.Some? ==>
      |commands.value| == |args| && forall i :: 0 <= i < |args| ==> commands.value[i] == split(args[i]).value
  {
    var acc: seq<seq<string>> := [];
    if singleCmd {
      if |args| > 0 {
        acc := acc + [args];
        assert acc == [args];
      }
      return Some(acc);
    }
    for k := 0 to |args|
      invariant |acc| == k
      invariant forall i :: 0 <= i < k ==> split(args[i]).Some? && acc[i] == split(args[i]).value
    {
      var words := split(args[k]);
      if words.None? {
        return None;
      }
      acc := acc + [words.value];
    }
    return Some(acc);
  }

  /** The process state of a finished command, as far as checkExit reads it. */
  datatype ProcessState = ProcessState(pid: int, exitCode: int)

  /** What checkExit does: go on to the next command, end the process with
      a status, or panic. */
  datatype Outcome = Continue | ExitWith(code: int) | Panic

  /** checkExit. Both paths read the pid before anything else, so a missing
      process state (a command that never started) panics whether or not
      the command failed and whether or not errors are ignored; otherwise a
      failure ends the process with the command's exit code unless errors
      are ignored. */
  function CheckExit(err: Option<Error>, ps: Option<ProcessState>, ignoreErrors: bool): (o: Outcome)
    ensures o.Panic? <==> ps.None?
    ensures o.ExitWith? <==> ps.Some? && err.Some? && !ignoreErrors
    ensures o.ExitWith? ==> o.code == ps.value.exitCode
  {
    if ps.None? then Panic
    else if err.None? then Continue
    else if !ignoreErrors then ExitWith(ps.value.exitCode)
    else Continue
  }
}
