/** Build status predicates of HarbormasterBuild: which statuses count as
    building or complete, and which of stop, resume and restart a build
    offers given the commands still waiting to be processed.

    The status is the stored string, so a value outside the eight constants
    is possible and satisfies none of the status predicates. A waiting
    command is represented by its command name; the three command names are
    those of HarbormasterBuildCommand, which is not part of this model. */
module HarbormasterBuild {

  const StatusInactive := "inactive"
  const StatusPending := "pending"
  const StatusWaiting := "waiting"
  const StatusBuilding := "building"
  const StatusPassed := "passed"
  const StatusFailed := "failed"
  const StatusError := "error"
  const StatusStopped := "stopped"

  const CommandStop := "stop"
  const CommandResume := "resume"
  const CommandRestart := "restart"

  datatype Build = Build(buildStatus: string, unprocessedCommands: seq<string>)

  /** initializeNewBuild: an inactive build with no commands attached. */
  function InitializeNewBuild(): (b: Build)
    ensures b.buildStatus == StatusInactive && b.unprocessedCommands == []
    ensures !IsBuilding(b) && !IsComplete(b) && CanRestartBuild(b) && !CanResumeBuild(b)
  {
    Build(StatusInactive, [])
  }

  predicate IsBuilding(b: Build) {
    b.buildStatus == StatusPending || b.buildStatus == StatusWaiting || b.buildStatus == StatusBuilding
  }

  predicate IsComplete(b: Build) {
    b.buildStatus in {StatusPassed, StatusFailed, StatusError, StatusStopped}
  }

  predicate IsStopped(b: Build) {
    b.buildStatus == StatusStopped
  }

  predicate HasWaitingCommand(b: Build, name: string) {
    exists i :: 0 <= i < |b.unprocessedCommands| && b.unprocessedCommands[i] == name
  }

  /** hasWaitingCommand: the search over the unprocessed commands. */
  method FindWaitingCommand(b: Build, name: string) returns (found: bool)
    ensures found <==> HasWaitingCommand(b, name)
  {
    for i := 0 to |b.unprocessedCommands|
      invariant forall j :: 0 <= j < i ==> b.unprocessedCommands[j] != name
    {
      if b.unprocessedCommands[i] == name {
        return true;
      }
    }
    return false;
  }

  predicate IsStopping(b: Build) { HasWaitingCommand(b, CommandStop) }
  predicate IsResuming(b: Build) { HasWaitingCommand(b, CommandResume) }
  predicate IsRestarting(b: Build) { HasWaitingCommand(b, CommandRestart) }

  predicate CanRestartBuild(b: Build) { !IsRestarting(b) }

  predicate CanStopBuild(b: Build) {
    !IsComplete(b) && !IsStopped(b) && !IsStopping(b)
  }

  predicate CanResumeBuild(b: Build) {
    IsStopped(b) && !IsResuming(b)
  }

  /* -------------------------------------------------------------------- */
  /* What the predicates promise together.                                 */

  /** A build is never both building and complete. */
  lemma BuildingExcludesComplete(b: Build)
    ensures !(IsBuilding(b) && IsComplete(b))
  {
  }

  lemma StoppedIsComplete(b: Build)
    ensures IsStopped(b) ==> IsComplete(b)
  {
  }

  /** Stop is offered only for a build that is neither complete nor
      already being stopped; so stop and resume are never offered together. */
  lemma StopOffered(b: Build)
    ensures CanStopBuild(b) <==> !IsComplete(b) && !IsStopping(b)
    ensures !(CanStopBuild(b) && CanResumeBuild(b))
  {
  }

  /** Resume is offered exactly for a stopped build without a pending
      resume; restart exactly when no restart is pending. */
  lemma ResumeAndRestartOffered(b: Build)
    ensures CanResumeBuild(b) <==> b.buildStatus == StatusStopped && CommandResume !in b.unprocessedCommands
    ensures CanRestartBuild(b) <==> CommandRestart !in b.unprocessedCommands
  {
  }

  /** Queuing a command makes it waiting and withdraws the matching offer. */
  lemma QueuedCommandWithdrawsOffer(b: Build, name: string)
    ensures var b' := b.(unprocessedCommands := b.unprocessedCommands + [name]);
      HasWaitingCommand(b', name) &&
      (name == CommandStop ==> !CanStopBuild(b')) &&
      (name == CommandResume ==> !CanResumeBuild(b')) &&
      (name == CommandRestart ==> !CanRestartBuild(b'))
  {
    var b' := b.(unprocessedCommands := b.unprocessedCommands + [name]);
    assert b'.unprocessedCommands[|b.unprocessedCommands|] == name;
  }
}
