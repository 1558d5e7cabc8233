/**
 The cluster agent's state machine. A request is handled by the current state, which may move
 to another state and pass the request on. The orchestrator's answer, the release file and the
 outcome of every command come from outside; a ghost trace records what was done.
 */
module ClusterAgent {
  import opened Wrappers

  datatype Phase = INACTIVE | REGISTERING | INSTALL_IN_PROGRESS | ACTIVE | DEREGISTERING | UNINSTALL_IN_PROGRESS

  datatype Error = IncorrectActionRequest(phase: Phase) | InstallFailed | ReleaseUnreadable | UninstallFailed | CleanupFailed

  datatype Event =
    | Entered(phase: Phase)
    | Fetched(install: string, uninstall: string)
    | Installed(command: string, ok: bool)
    | Patched(ok: bool)
    | Uninstalled(command: string, ok: bool)
    | CleanedUp(ok: bool)

  /** What the outside world answers while one request is handled. */
  datatype Answers = Answers(
    install: string, uninstall: string,  // the commands a registration would yield
    installs: bool,
    release: Option<bool>,               // None: unreadable; else whether it is an Edge Microvisor Toolkit
    patches: bool, uninstalls: bool, cleansUp: bool)

  datatype Machine = Machine(phase: Phase, installCmd: string, uninstallCmd: string, trace: seq<Event>)

  datatype Request = Register(answers: Answers) | Deregister(answers: Answers)

  const NEW := Machine(INACTIVE, "", "", [])

  function Note(m: Machine, e: Event): Machine {
    m.(trace := m.trace + [e])
  }

  function Enter(m: Machine, phase: Phase): Machine {
    Note(m.(phase := phase), Entered(phase))
  }

  function Fetch(m: Machine, a: Answers): Machine {
    Note(m.(installCmd := a.install, uninstallCmd := a.uninstall), Fetched(a.install, a.uninstall))
  }

  /** Run the install command the machine holds. */
  function Install(m: Machine, a: Answers): (Machine, Option<Error>) {
    var done := Note(m, Installed(m.installCmd, a.installs));
    if a.installs then (Enter(done, ACTIVE), None) else (Enter(done, INACTIVE), Some(InstallFailed))
  }

  /** Run the uninstall command the machine holds; a command that failed is forgotten. */
  function Uninstall(m: Machine, a: Answers): (Machine, Option<Error>) {
    if a.release.None? then (m, Some(ReleaseUnreadable))
    else
      var patched := if a.release.value then Note(m, Patched(a.patches)) else m;
      var done := Note(patched, Uninstalled(m.uninstallCmd, a.uninstalls));
      if !a.uninstalls then (Enter(done.(uninstallCmd := ""), INACTIVE), Some(UninstallFailed))
      else (Enter(Note(done, CleanedUp(a.cleansUp)), INACTIVE), if a.cleansUp then None else Some(CleanupFailed))
  }

  predicate Rejects(phase: Phase, request: Request) {
    match request
    case Register(_) => phase in {ACTIVE, DEREGISTERING, UNINSTALL_IN_PROGRESS}
    case Deregister(_) => phase in {REGISTERING, INSTALL_IN_PROGRESS}
  }

  /** A whole request, without the dispatch: which steps it takes from each state. */
  function Handle(m: Machine, request: Request): (Machine, Option<Error>) {
    var a := request.answers;
    if Rejects(m.phase, request) then (m, Some(IncorrectActionRequest(m.phase)))
    else match request
      case Register(_) =>
        var m1 := if m.phase == INACTIVE then Enter(m, REGISTERING) else m;
        var m2 := if m1.phase == REGISTERING then Enter(Fetch(m1, a), INSTALL_IN_PROGRESS) else m1;
        Install(m2, a)
      case Deregister(_) =>
        if m.phase == UNINSTALL_IN_PROGRESS then Uninstall(m, a)
        else
          var m1 := if m.phase == DEREGISTERING then m else Enter(m, DEREGISTERING);
          var m2 := if m1.uninstallCmd == "" then Fetch(m1, a) else m1;
          Uninstall(Enter(m2, UNINSTALL_IN_PROGRESS), a)
  }

  // ----- The code -----

  class StateMachine {
    var currentState: Phase
    var installCmd: string
    var uninstallCmd: string
    ghost var trace: seq<Event>

    ghost function View(): Machine
      reads this
    {
      Machine(currentState, installCmd, uninstallCmd, trace)
    }

    constructor ()
      ensures View() == NEW
    {
      currentState, installCmd, uninstallCmd := INACTIVE, "", "";
      trace := [];
    }

    method Set(phase: Phase)
      modifies this
      ensures View() == Enter(old(View()), phase)
    {
      currentState := phase;
      trace := trace + [Entered(phase)];
    }

    method RegisterToClusterOrch(a: Answers)
      modifies this
      ensures View() == Fetch(old(View()), a)
    {
      installCmd, uninstallCmd := a.install, a.uninstall;
      trace := trace + [Fetched(a.install, a.uninstall)];
    }

    /** Passes the request to the current state. */
    method Register(a: Answers) returns (error: Option<Error>)
      modifies this
      ensures (View(), error) == Handle(old(View()), Request.Register(a))
      decreases RegisterRank(currentState), 1
    {
      match currentState {
        case INACTIVE => error := InactiveRegister(a);
        case REGISTERING => error := RegisteringRegister(a);
        case INSTALL_IN_PROGRESS => error := InstallInProgressRegister(a);
        case _ => error := Some(IncorrectActionRequest(currentState));
      }
    }

    method InactiveRegister(a: Answers) returns (error: Option<Error>)
      requires currentState == INACTIVE
      modifies this
      ensures (View(), error) == Handle(old(View()), Request.Register(a))
      decreases RegisterRank(currentState), 0
    {
      Set(REGISTERING);
      error := Register(a);
    }

    method RegisteringRegister(a: Answers) returns (error: Option<Error>)
      requires currentState == REGISTERING
      modifies this
      ensures (View(), error) == Handle(old(View()), Request.Register(a))
      decreases RegisterRank(currentState), 0
    {
      RegisterToClusterOrch(a);
      Set(INSTALL_IN_PROGRESS);
      error := Register(a);
    }

    method InstallInProgressRegister(a: Answers) returns (error: Option<Error>)
      requires currentState == INSTALL_IN_PROGRESS
      modifies this
      ensures (View(), error) == Handle(old(View()), Request.Register(a))
      decreases RegisterRank(currentState), 0
    {
      trace := trace + [Installed(installCmd, a.installs)];
      if !a.installs {
        Set(INACTIVE);
        return Some(InstallFailed);
      }
      Set(ACTIVE);
      return None;
    }

    /** Passes the request to the current state. */
    method Deregister(a: Answers) returns (error: Option<Error>)
      modifies this
      ensures (View(), error) == Handle(old(View()), Request.Deregister(a))
      decreases DeregisterRank(currentState), 1
    {
      match currentState {
        case INACTIVE => error := RestingDeregister(a);
        case ACTIVE => error := RestingDeregister(a);
        case DEREGISTERING => error := DeregisteringDeregister(a);
        case UNINSTALL_IN_PROGRESS => error := UninstallInProgressDeregister(a);
        case _ => error := Some(IncorrectActionRequest(currentState));
      }
    }

    /** The same in Inactive and in Active. */
    method RestingDeregister(a: Answers) returns (error: Option<Error>)
      requires currentState == INACTIVE || currentState == ACTIVE
      modifies this
      ensures (View(), error) == Handle(old(View()), Request.Deregister(a))
      decreases DeregisterRank(currentState), 0
    {
      Set(DEREGISTERING);
      error := Deregister(a);
    }

    method DeregisteringDeregister(a: Answers) returns (error: Option<Error>)
      requires currentState == DEREGISTERING
      modifies this
      ensures (View(), error) == Handle(old(View()), Request.Deregister(a))
      decreases DeregisterRank(currentState), 0
    {
      if uninstallCmd == "" {
        RegisterToClusterOrch(a);
      }
      Set(UNINSTALL_IN_PROGRESS);
      error := Deregister(a);
    }

    method UninstallInProgressDeregister(a: Answers) returns (error: Option<Error>)
      requires currentState == UNINSTALL_IN_PROGRESS
      modifies this
      ensures (View(), error) == Handle(old(View()), Request.Deregister(a))
      decreases DeregisterRank(currentState), 0
    {
      if a.release.None? {
        return Some(ReleaseUnreadable);
      }
      if a.release.value {
        trace := trace + [Patched(a.patches)];
      }
      trace := trace + [Uninstalled(uninstallCmd, a.uninstalls)];
      if !a.uninstalls {
        uninstallCmd := "";
        Set(INACTIVE);
        return Some(UninstallFailed);
      }
      trace := trace + [CleanedUp(a.cleansUp)];
      Set(INACTIVE);
      return if a.cleansUp then None else Some(CleanupFailed);
    }
  }

  /** Every state that passes a request on is above the state that receives it. */
  function RegisterRank(phase: Phase): nat {
    match phase
    case INACTIVE => 2
    case REGISTERING => 1
    case _ => 0
  }

  function DeregisterRank(phase: Phase): nat {
    match phase
    case INACTIVE => 2
    case ACTIVE => 2
    case DEREGISTERING => 1
    case _ => 0
  }

  // ----- Request sequences -----

  function Run(requests: seq<Request>): Machine {
    if requests == [] then NEW else Handle(Run(requests[..|requests| - 1]), requests[|requests| - 1]).0
  }

  /** Between requests the machine is inactive, active, or stuck in the middle of an uninstallation. */
  lemma {:induction false} RestingStates(requests: seq<Request>)
    ensures Run(requests).phase in {INACTIVE, ACTIVE, UNINSTALL_IN_PROGRESS}
  {
    if requests != [] {
      RestingStates(requests[..|requests| - 1]);
    }
  }

  predicate Accepted(requests: seq<Request>, i: nat)
    requires i < |requests|
  {
    !Rejects(Run(requests[..i]).phase, requests[i])
  }

  predicate IsLastAccepted(requests: seq<Request>, i: nat)
    requires i < |requests|
  {
    Accepted(requests, i) && forall k :: i < k < |requests| ==> !Accepted(requests, k)
  }

  predicate ActivatedBy(requests: seq<Request>, i: nat)
    requires i < |requests|
  {
    requests[i].Register? && requests[i].answers.installs
  }

  /** The machine is active exactly when the last request it accepted was a registration that installed. */
  lemma {:induction false} ActiveExactlyAfterInstall(requests: seq<Request>)
    ensures Run(requests).phase == ACTIVE
            <==> exists i :: 0 <= i < |requests| && IsLastAccepted(requests, i) && ActivatedBy(requests, i)
  {
    if requests != [] {
      var init, n := requests[..|requests| - 1], |requests| - 1;
      ActiveExactlyAfterInstall(init);
      RestingStates(init);
      assert Run(requests) == Handle(Run(init), requests[n]).0;
      hide Run;
      assert requests[..n] == init;
      assert forall i :: 0 <= i < n ==> requests[..i] == init[..i];
      if Accepted(requests, n) {
        assert IsLastAccepted(requests, n);
        assert Run(requests).phase == ACTIVE <==> ActivatedBy(requests, n);
      } else {
        forall i | 0 <= i < n
          ensures IsLastAccepted(requests, i) <==> IsLastAccepted(init, i)
        {
          assert forall k :: 0 <= k < n ==> (Accepted(requests, k) <==> Accepted(init, k));
        }
      }
    }
  }

  /** A machine at rest rejects registrations unless it is inactive, and never a deregistration; a rejection does nothing. */
  lemma RejectsExactly(m: Machine, request: Request)
    requires m.phase in {INACTIVE, ACTIVE, UNINSTALL_IN_PROGRESS}
    ensures Rejects(m.phase, request) <==> request.Register? && m.phase != INACTIVE
    ensures Handle(m, request).1 == Some(IncorrectActionRequest(m.phase)) <==> Rejects(m.phase, request)
    ensures Rejects(m.phase, request) ==> Handle(m, request).0 == m
  {
  }

  /** Every failure is reported as itself, the first one met, and success only without any. */
  lemma ReportsExactly(m: Machine, request: Request)
    requires m.phase in {INACTIVE, ACTIVE, UNINSTALL_IN_PROGRESS} && !Rejects(m.phase, request)
    ensures
      var (a, error) := (request.answers, Handle(m, request).1);
      if request.Register? then (error.None? <==> a.installs) && (error == Some(InstallFailed) <==> !a.installs)
      else
        && (error == Some(ReleaseUnreadable) <==> a.release.None?)
        && (error == Some(UninstallFailed) <==> a.release.Some? && !a.uninstalls)
        && (error == Some(CleanupFailed) <==> a.release.Some? && a.uninstalls && !a.cleansUp)
        && (error.None? <==> a.release.Some? && a.uninstalls && a.cleansUp)
  {
  }

  /** An accepted registration fetches both commands and runs the one to install, through these states. */
  lemma RegistrationTrace(m: Machine, a: Answers)
    requires m.phase == INACTIVE
    ensures Handle(m, Register(a)).0
         == Machine(if a.installs then ACTIVE else INACTIVE, a.install, a.uninstall,
                    m.trace + [Entered(REGISTERING), Fetched(a.install, a.uninstall), Entered(INSTALL_IN_PROGRESS),
                               Installed(a.install, a.installs), Entered(if a.installs then ACTIVE else INACTIVE)])
  {
  }

  /** The states a deregistration passes before it uninstalls, and the registration if it holds no command. */
  function BeforeUninstall(m: Machine, a: Answers): seq<Event> {
    if m.phase == UNINSTALL_IN_PROGRESS then []
    else [Entered(DEREGISTERING)] + (if m.uninstallCmd == "" then [Fetched(a.install, a.uninstall)] else [])
         + [Entered(UNINSTALL_IN_PROGRESS)]
  }

  /** The command a deregistration runs: the one held, or else the one fetched. */
  function CommandFor(m: Machine, a: Answers): string {
    if m.uninstallCmd != "" || m.phase == UNINSTALL_IN_PROGRESS then m.uninstallCmd else a.uninstall
  }

  /** What uninstalling does: the patch on an Edge Microvisor only, the command, and the clean-up if that succeeded. */
  function DuringUninstall(command: string, a: Answers): seq<Event> {
    if a.release.None? then []
    else (if a.release.value then [Patched(a.patches)] else []) + [Uninstalled(command, a.uninstalls)]
         + (if a.uninstalls then [CleanedUp(a.cleansUp)] else []) + [Entered(INACTIVE)]
  }

  lemma UninstallTrace(m: Machine, a: Answers)
    ensures Uninstall(m, a).0
         == Machine(if a.release.Some? then INACTIVE else m.phase, m.installCmd,
                    if a.release.Some? && !a.uninstalls then "" else m.uninstallCmd,
                    m.trace + DuringUninstall(m.uninstallCmd, a))
  {
  }

  /** A deregistration, whatever fails: what is done in which order, and the command that is kept. */
  lemma DeregistrationTrace(m: Machine, a: Answers)
    requires m.phase in {INACTIVE, ACTIVE, UNINSTALL_IN_PROGRESS}
    ensures
      var after := Handle(m, Deregister(a)).0;
      && after.phase == (if a.release.Some? then INACTIVE else UNINSTALL_IN_PROGRESS)
      && after.uninstallCmd == (if a.release.Some? && !a.uninstalls then "" else CommandFor(m, a))
      && after.trace == m.trace + BeforeUninstall(m, a) + DuringUninstall(CommandFor(m, a), a)
  {
    hide Uninstall, DuringUninstall;
    if m.phase == UNINSTALL_IN_PROGRESS {
      UninstallTrace(m, a);
      assert m.trace + [] == m.trace;
    } else {
      var m1 := Enter(m, DEREGISTERING);
      var m2 := Enter(if m1.uninstallCmd == "" then Fetch(m1, a) else m1, UNINSTALL_IN_PROGRESS);
      UninstallTrace(m2, a);
      assert m2.trace == m.trace + BeforeUninstall(m, a);
    }
  }

  // ----- What the commands are -----

  /** The uninstall command of the latest registration, forgotten once it has failed. */
  function Registration(trace: seq<Event>): Option<string> {
    if trace == [] then None
    else
      var last := trace[|trace| - 1];
      match last
      case Fetched(_, uninstall) => Some(uninstall)
      case Uninstalled(_, false) => None
      case _ => Registration(trace[..|trace| - 1])
  }

  /** Installing runs the command fetched just before; uninstalling runs one that is registered. */
  predicate Justified(trace: seq<Event>, j: nat)
    requires j < |trace|
  {
    match trace[j]
    case Installed(command, _) => j > 1 && trace[j - 1] == Entered(INSTALL_IN_PROGRESS)
                                  && trace[j - 2].Fetched? && trace[j - 2].install == command
    case Uninstalled(command, _) => Registration(trace[..j]) == Some(command)
    case _ => true
  }

  predicate AllJustified(trace: seq<Event>) {
    forall j :: 0 <= j < |trace| ==> Justified(trace, j)
  }

  predicate Sound(m: Machine) {
    && AllJustified(m.trace)
    && match Registration(m.trace) {
       case Some(uninstall) => m.uninstallCmd == uninstall
       case None => m.uninstallCmd == "" && m.phase != UNINSTALL_IN_PROGRESS
       }
  }

  /** One more event keeps the trace justified if it is justified itself. */
  lemma OneMoreEvent(m: Machine, e: Event)
    requires Sound(m)
    requires e.Installed? ==> Justified(m.trace + [e], |m.trace|)
    requires e.Uninstalled? ==> Registration(m.trace) == Some(e.command)
    ensures AllJustified(m.trace + [e])
    ensures Registration(m.trace + [e]) == match e
              case Fetched(_, uninstall) => Some(uninstall)
              case Uninstalled(_, false) => None
              case _ => Registration(m.trace)
  {
    var trace := m.trace + [e];
    assert trace[..|m.trace|] == m.trace;
    forall j | 0 <= j < |trace|
      ensures Justified(trace, j)
    {
      if j < |m.trace| {
        assert Justified(m.trace, j) && trace[..j] == m.trace[..j];
      }
    }
  }

  lemma InstallIsSound(m: Machine, a: Answers)
    requires Sound(m) && m.phase == INSTALL_IN_PROGRESS
    requires Justified(m.trace + [Installed(m.installCmd, a.installs)], |m.trace|)
    ensures Sound(Install(m, a).0)
  {
    hide AllJustified, Justified, Registration;
    OneMoreEvent(m, Installed(m.installCmd, a.installs));
    var done := Note(m, Installed(m.installCmd, a.installs));
    OneMoreEvent(done, Entered(ACTIVE));
    OneMoreEvent(done, Entered(INACTIVE));
  }

  lemma UninstallIsSound(m: Machine, a: Answers)
    requires Sound(m) && m.phase == UNINSTALL_IN_PROGRESS
    ensures Sound(Uninstall(m, a).0)
  {
    hide AllJustified, Justified, Registration;
    OneMoreEvent(m, Patched(a.patches));
    if a.release.Some? {
      var patched := if a.release.value then Note(m, Patched(a.patches)) else m;
      OneMoreEvent(patched, Uninstalled(m.uninstallCmd, a.uninstalls));
      var done := Note(patched, Uninstalled(m.uninstallCmd, a.uninstalls));
      if a.uninstalls {
        OneMoreEvent(done, CleanedUp(a.cleansUp));
        OneMoreEvent(Note(done, CleanedUp(a.cleansUp)), Entered(INACTIVE));
      } else {
        OneMoreEvent(done.(uninstallCmd := "", phase := INACTIVE), Entered(INACTIVE));
      }
    }
  }

  lemma HandleIsSound(m: Machine, request: Request)
    requires Sound(m) && m.phase in {INACTIVE, ACTIVE, UNINSTALL_IN_PROGRESS}
    ensures Sound(Handle(m, request).0)
  {
    hide AllJustified, Registration, Install, Uninstall;
    if !Rejects(m.phase, request) {
      var a := request.answers;
      if request.Register? {
        OneMoreEvent(m, Entered(REGISTERING));
        var m1 := Enter(m, REGISTERING);
        OneMoreEvent(m1, Fetched(a.install, a.uninstall));
        var m2 := Fetch(m1, a);
        OneMoreEvent(m2, Entered(INSTALL_IN_PROGRESS));
        InstallIsSound(Enter(m2, INSTALL_IN_PROGRESS), a);
      } else if m.phase == UNINSTALL_IN_PROGRESS {
        UninstallIsSound(m, a);
      } else {
        OneMoreEvent(m, Entered(DEREGISTERING));
        var m1 := Enter(m, DEREGISTERING);
        OneMoreEvent(m1, Fetched(a.install, a.uninstall));
        var m2 := if m1.uninstallCmd == "" then Fetch(m1, a) else m1;
        OneMoreEvent(m2, Entered(UNINSTALL_IN_PROGRESS));
        UninstallIsSound(Enter(m2, UNINSTALL_IN_PROGRESS), a);
      }
    }
  }

  /** Over every run, commands are only ever executed as a registration justifies them. */
  lemma {:induction false} EveryCommandIsJustified(requests: seq<Request>)
    ensures Sound(Run(requests))
  {
    if requests != [] {
      var init := requests[..|requests| - 1];
      EveryCommandIsJustified(init);
      RestingStates(init);
      HandleIsSound(Run(init), requests[|requests| - 1]);
    }
  }

  lemma {:induction false} FailureForgetsTheCommand(trace: seq<Event>, i: nat, n: nat)
    requires i < n <= |trace| && trace[i].Uninstalled? && !trace[i].ok
    requires forall k :: i < k < n ==> !trace[k].Fetched?
    ensures Registration(trace[..n]) == None
  {
    assert trace[..n][..n - 1] == trace[..n - 1];
    if n > i + 1 {
      FailureForgetsTheCommand(trace, i, n - 1);
    }
  }

  /** After an uninstall command failed, a registration comes before the next one is executed. */
  lemma FailedUninstallNeedsRegistration(requests: seq<Request>, i: nat, j: nat)
    requires i < j < |Run(requests).trace|
    requires Run(requests).trace[i].Uninstalled? && !Run(requests).trace[i].ok
    requires Run(requests).trace[j].Uninstalled?
    ensures exists k :: i < k < j && Run(requests).trace[k].Fetched?
  {
    EveryCommandIsJustified(requests);
    assert Justified(Run(requests).trace, j);
    if forall k :: i < k < j ==> !Run(requests).trace[k].Fetched? {
      FailureForgetsTheCommand(Run(requests).trace, i, j);
    }
  }

  /**
   A successful uninstallation does not forget the command: the next deregistration runs the
   same one again, whatever the orchestrator would answer by then.
   */
  lemma DeregisteringAgainReusesTheCommand(m: Machine, first: Answers, second: Answers)
    requires m.phase in {INACTIVE, ACTIVE} && m.uninstallCmd != ""
    requires first.release.Some? && second.release.Some?
    ensures
      var m1 := Handle(m, Deregister(first)).0;
      var m2 := Handle(m1, Deregister(second)).0;
      && m1.phase == INACTIVE
      && m1.uninstallCmd == (if first.uninstalls then m.uninstallCmd else "")
      && (m1.trace + [Entered(DEREGISTERING)]
          + (if first.uninstalls then [] else [Fetched(second.install, second.uninstall)])
          + [Entered(UNINSTALL_IN_PROGRESS)]
          + (if second.release.value then [Patched(second.patches)] else [])
          + [Uninstalled(if first.uninstalls then m.uninstallCmd else second.uninstall, second.uninstalls)])
         <= m2.trace
  {
    var m1 := Handle(m, Deregister(first)).0;
    DeregisterTrace(m1, second);
  }

  /** How the trace of a deregistration from INACTIVE begins. */
  lemma DeregisterTrace(m: Machine, a: Answers)
    requires m.phase == INACTIVE && a.release.Some?
    ensures (m.trace + [Entered(DEREGISTERING)]
             + (if m.uninstallCmd != "" then [] else [Fetched(a.install, a.uninstall)])
             + [Entered(UNINSTALL_IN_PROGRESS)]
             + (if a.release.value then [Patched(a.patches)] else [])
             + [Uninstalled(if m.uninstallCmd != "" then m.uninstallCmd else a.uninstall, a.uninstalls)])
            <= Handle(m, Deregister(a)).0.trace
  {
  }

  /** With the release file unreadable the machine stays stuck: only a deregistration with the file back frees it. */
  lemma UnreadableReleaseStrands(m: Machine, a: Answers, request: Request)
    requires !Rejects(m.phase, Deregister(a)) && a.release.None?
    ensures
      var stranded := Handle(m, Deregister(a)).0;
      && stranded.phase == UNINSTALL_IN_PROGRESS
      && (request.Register? ==> Handle(stranded, request).1 == Some(IncorrectActionRequest(UNINSTALL_IN_PROGRESS)))
      && (Handle(stranded, request).0.phase != UNINSTALL_IN_PROGRESS
          <==> request.Deregister? && request.answers.release.Some?)
  {
  }
}
