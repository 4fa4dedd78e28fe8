/** From a finished local process to a recovery decision: what its exit and its log
    evidence, which failure that is, and what the policy table says of it. */
module RecoveryPolicy {
  import opened Prelude

  datatype FailureClass =
    | APPLICATION_ERROR | DATA_ERROR | WORKER_CRASH | NODE_LOSS | ACCELERATOR_FAILURE | COMMUNICATION_ERROR
    | NETWORK_DEGRADATION | STORAGE_TIMEOUT | ARTIFACT_CORRUPTION | PREEMPTION | CORRELATED_INCIDENT
    | CONTROL_PLANE_FAILURE | UNKNOWN

  datatype Action = FAIL_JOB | RETRY_TASK | RESTART_GROUP | REPLACE_NODE | PAUSE_JOB | FREEZE_AUTOMATION

  datatype Mode = IndependentTasks | CoordinatedTraining

  /** The message is carried as what its marker searches find in it. */
  datatype Signals = Signals(
    exitCode: Option<int>, exitDeterministic: bool, heartbeatLost: bool, nodeUnreachable: bool, xidEvent: bool,
    driverFault: bool, hashMismatch: bool, validationFailed: bool, preemptionNotice: bool, storageErrors: int,
    controlPlaneUnreachable: bool, concurrentFailures: int, commMarker: bool, storageMarker: bool)

  /** A captured log as what the three log patterns find in it. */
  datatype Log = Log(deterministicTerminal: bool, traceback: bool, elasticWrapper: bool)

  const CORRELATED_THRESHOLD := 3

  function ExitSignals(exitCode: Option<int>, deterministic: bool): Signals {
    Signals(exitCode, deterministic, false, false, false, false, false, false, false, 0, false, 1, false, false)
  }

  function FromLocalLaunch(exitCode: Option<int>, log: Log): Signals {
    if exitCode == Some(0) || exitCode == None then ExitSignals(exitCode, false)
    else if log.deterministicTerminal then ExitSignals(exitCode, true)
    else if log.traceback && !log.elasticWrapper then ExitSignals(exitCode, true)
    else ExitSignals(exitCode, false)
  }

  /** The first rule that matches; systemic evidence before node, node before process. */
  function Classify(s: Signals): FailureClass {
    if s.concurrentFailures >= CORRELATED_THRESHOLD then CORRELATED_INCIDENT
    else if s.controlPlaneUnreachable then CONTROL_PLANE_FAILURE
    else if s.preemptionNotice then PREEMPTION
    else if s.xidEvent || s.driverFault then ACCELERATOR_FAILURE
    else if s.heartbeatLost || s.nodeUnreachable then NODE_LOSS
    else if s.commMarker then COMMUNICATION_ERROR
    else if s.storageErrors > 0 || s.storageMarker then STORAGE_TIMEOUT
    else if s.hashMismatch || s.validationFailed then ARTIFACT_CORRUPTION
    else if s.exitCode.Some? && s.exitCode.value != 0 then
      if s.exitDeterministic then APPLICATION_ERROR else WORKER_CRASH
    else UNKNOWN
  }

  function Decide(failure: FailureClass, mode: Mode): Action {
    match (failure, mode)
    case (APPLICATION_ERROR, _) => FAIL_JOB
    case (DATA_ERROR, IndependentTasks) => RETRY_TASK
    case (DATA_ERROR, CoordinatedTraining) => FAIL_JOB
    case (WORKER_CRASH, IndependentTasks) => RETRY_TASK
    case (WORKER_CRASH, CoordinatedTraining) => RESTART_GROUP
    case (NODE_LOSS, IndependentTasks) => RETRY_TASK
    case (NODE_LOSS, CoordinatedTraining) => REPLACE_NODE
    case (ACCELERATOR_FAILURE, IndependentTasks) => RETRY_TASK
    case (ACCELERATOR_FAILURE, CoordinatedTraining) => REPLACE_NODE
    case (COMMUNICATION_ERROR, IndependentTasks) => RETRY_TASK
    case (COMMUNICATION_ERROR, CoordinatedTraining) => RESTART_GROUP
    case (NETWORK_DEGRADATION, IndependentTasks) => RETRY_TASK
    case (NETWORK_DEGRADATION, CoordinatedTraining) => RESTART_GROUP
    case (STORAGE_TIMEOUT, _) => PAUSE_JOB
    case (ARTIFACT_CORRUPTION, IndependentTasks) => RETRY_TASK
    case (ARTIFACT_CORRUPTION, CoordinatedTraining) => RESTART_GROUP
    case (PREEMPTION, IndependentTasks) => RETRY_TASK
    case (PREEMPTION, CoordinatedTraining) => REPLACE_NODE
    case (CORRELATED_INCIDENT, _) => FREEZE_AUTOMATION
    case (CONTROL_PLANE_FAILURE, _) => PAUSE_JOB
    case (UNKNOWN, IndependentTasks) => RETRY_TASK
    case (UNKNOWN, CoordinatedTraining) => PAUSE_JOB
  }

  /** A log that shows a bug a retry would only repeat: a named exception where a
      traceback ends, or any traceback that is not the elastic launcher's own. */
  predicate ShowsABug(log: Log) {
    log.deterministicTerminal || (log.traceback && !log.elasticWrapper)
  }

  // ------------------------------------------------ what outranks what

  /** Something is wrong with more than one job. */
  predicate Systemic(s: Signals) { s.concurrentFailures >= 3 || s.controlPlaneUnreachable }

  /** The machine is the suspect. */
  predicate NodeTrouble(s: Signals) {
    s.preemptionNotice || s.xidEvent || s.driverFault || s.heartbeatLost || s.nodeUnreachable
  }

  /** What the process leans on is the suspect. */
  predicate PeerTrouble(s: Signals) {
    s.commMarker || s.storageErrors > 0 || s.storageMarker || s.hashMismatch || s.validationFailed
  }

  /** Systemic evidence outranks the machine's, that the network's and storage's, and only
      with none of these does the exit speak; with no evidence at all the failure is
      unknown. No signal ever says data error or degraded network. */
  lemma ClassifyMeans(s: Signals)
    ensures Classify(s) == CORRELATED_INCIDENT <==> s.concurrentFailures >= 3
    ensures Classify(s) == CONTROL_PLANE_FAILURE <==> s.concurrentFailures < 3 && s.controlPlaneUnreachable
    ensures Classify(s) == PREEMPTION <==> !Systemic(s) && s.preemptionNotice
    ensures Classify(s) == ACCELERATOR_FAILURE <==> !Systemic(s) && !s.preemptionNotice && (s.xidEvent || s.driverFault)
    ensures Classify(s) == NODE_LOSS <==>
              !Systemic(s) && !s.preemptionNotice && !s.xidEvent && !s.driverFault && (s.heartbeatLost || s.nodeUnreachable)
    ensures Classify(s) == COMMUNICATION_ERROR <==> !Systemic(s) && !NodeTrouble(s) && s.commMarker
    ensures Classify(s) == STORAGE_TIMEOUT <==>
              !Systemic(s) && !NodeTrouble(s) && !s.commMarker && (s.storageErrors > 0 || s.storageMarker)
    ensures Classify(s) == ARTIFACT_CORRUPTION <==>
              !Systemic(s) && !NodeTrouble(s) && !s.commMarker && s.storageErrors <= 0 && !s.storageMarker && (s.hashMismatch || s.validationFailed)
    ensures Classify(s) == APPLICATION_ERROR <==>
              !Systemic(s) && !NodeTrouble(s) && !PeerTrouble(s) && s.exitCode.Some? && s.exitCode.value != 0 && s.exitDeterministic
    ensures Classify(s) == WORKER_CRASH <==>
              !Systemic(s) && !NodeTrouble(s) && !PeerTrouble(s) && s.exitCode.Some? && s.exitCode.value != 0 && !s.exitDeterministic
    ensures Classify(s) == UNKNOWN <==>
              !Systemic(s) && !NodeTrouble(s) && !PeerTrouble(s) && (s.exitCode.Some? ==> s.exitCode.value == 0)
    ensures Classify(s) != DATA_ERROR && Classify(s) != NETWORK_DEGRADATION
  {
  }

  /** The policy read backwards: which failures get which action. Only a bug, or bad data
      that a resume would meet again, fails the job; only an incident across jobs freezes
      the automation; independent tasks otherwise retry, coordinated ones restart as a
      group, on another node if the node was the trouble, or wait if it is unclear. */
  lemma ActionsMean(f: FailureClass)
    ensures Decide(f, IndependentTasks) == FAIL_JOB <==> f == APPLICATION_ERROR
    ensures Decide(f, CoordinatedTraining) == FAIL_JOB <==> f in {APPLICATION_ERROR, DATA_ERROR}
    ensures forall mode :: Decide(f, mode) == FREEZE_AUTOMATION <==> f == CORRELATED_INCIDENT
    ensures Decide(f, IndependentTasks) == PAUSE_JOB <==> f in {STORAGE_TIMEOUT, CONTROL_PLANE_FAILURE}
    ensures Decide(f, CoordinatedTraining) == PAUSE_JOB <==> f in {STORAGE_TIMEOUT, CONTROL_PLANE_FAILURE, UNKNOWN}
    ensures Decide(f, CoordinatedTraining) == REPLACE_NODE <==> f in {NODE_LOSS, ACCELERATOR_FAILURE, PREEMPTION}
    ensures Decide(f, CoordinatedTraining) == RESTART_GROUP <==>
              f in {WORKER_CRASH, COMMUNICATION_ERROR, NETWORK_DEGRADATION, ARTIFACT_CORRUPTION}
    ensures Decide(f, IndependentTasks) == RETRY_TASK <==> f !in {APPLICATION_ERROR, STORAGE_TIMEOUT, CONTROL_PLANE_FAILURE, CORRELATED_INCIDENT}
    ensures Decide(f, CoordinatedTraining) != RETRY_TASK && Decide(f, IndependentTasks) !in {REPLACE_NODE, RESTART_GROUP}
  {
  }
}
