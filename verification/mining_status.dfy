// The mining state machine of a node: which mining activity (composing a
// block proposal, guessing a proof-of-work nonce) the node is in, which
// transitions between activities are permitted, and how pausing for the
// three pause reasons interacts with the current activity.
//
// `SystemTime::now()` is an explicit `now` parameter; every reading of the
// clock inside one call sees the same value.
module Mining {
  import opened Wrappers

  type Time = nat

  /** The ten states, in the order of their `u8` representation. */
  datatype MiningState =
    | Init
    | AwaitBlockProposal
    | Composing
    | AwaitBlock
    | Guessing
    | NewTipBlock
    | ComposeError
    | Paused
    | Disabled
    | Shutdown

  datatype MiningPausedReason = Rpc | SyncBlocks | NeedConnection

  datatype GuessingWorkInfo = GuessingWorkInfo(
    numInputs: nat,
    numOutputs: nat,
    totalCoinbase: int,
    totalGuesserFee: int)

  /** A state together with the time it was entered and its variant data. */
  datatype MiningStatus =
    | Disabled(since: Time)
    | Init(since: Time)
    | Paused(since: Time, reasons: seq<MiningPausedReason>)
    | AwaitBlockProposal(since: Time)
    | AwaitBlock(since: Time)
    | Composing(since: Time)
    | Guessing(since: Time, workInfo: Option<GuessingWorkInfo>)
    | NewTipBlock(since: Time)
    | ComposeError(since: Time)
    | Shutdown(since: Time)
  {
    function State(): MiningState {
      match this
      case Disabled(_) => MiningState.Disabled
      case Init(_) => MiningState.Init
      case Paused(_, _) => MiningState.Paused
      case AwaitBlockProposal(_) => MiningState.AwaitBlockProposal
      case AwaitBlock(_) => MiningState.AwaitBlock
      case Composing(_) => MiningState.Composing
      case Guessing(_, _) => MiningState.Guessing
      case NewTipBlock(_) => MiningState.NewTipBlock
      case ComposeError(_) => MiningState.ComposeError
      case Shutdown(_) => MiningState.Shutdown
    }
  }

  datatype MiningEvent =
    | Advance
    | InitEvent
    | PauseRpc
    | UnPauseRpc
    | PauseSyncBlock
    | UnPauseSyncBlock
    | PauseNeedConnection
    | UnPauseNeedConnection
    | NewBlockProposal
    | NewTipBlockEvent
    | ComposeErrorEvent
    | ShutdownEvent

  datatype InvalidStateTransition = InvalidStateTransition(oldState: MiningState, newState: MiningState)

  /** `From<MiningState>`: a fresh status for `state`; guessing carries no work info, pausing uses the Rpc reason. */
  function FromState(state: MiningState, now: Time): (r: MiningStatus)
    ensures r.State() == state && r.since == now
    ensures r.Guessing? ==> r.workInfo.None?
    ensures r.Paused? ==> r.reasons == [Rpc]
  {
    match state
    case Disabled => MiningStatus.Disabled(now)
    case Init => MiningStatus.Init(now)
    case AwaitBlockProposal => MiningStatus.AwaitBlockProposal(now)
    case AwaitBlock => MiningStatus.AwaitBlock(now)
    case Composing => MiningStatus.Composing(now)
    case Guessing => MiningStatus.Guessing(now, None)
    case NewTipBlock => MiningStatus.NewTipBlock(now)
    case ComposeError => MiningStatus.ComposeError(now)
    case Shutdown => MiningStatus.Shutdown(now)
    case Paused => MiningStatus.Paused(now, [Rpc])
  }

  /** The row of the transition table for each state: the states it may move to. */
  function Transitions(s: MiningState): seq<MiningState> {
    match s
    case Init => [MiningState.AwaitBlockProposal, MiningState.NewTipBlock, MiningState.Paused, MiningState.Shutdown]
    case AwaitBlockProposal =>
      [MiningState.Composing, MiningState.Paused, MiningState.Shutdown, MiningState.AwaitBlockProposal, MiningState.NewTipBlock]
    case Composing =>
      [MiningState.AwaitBlock, MiningState.ComposeError, MiningState.Paused, MiningState.Shutdown, MiningState.NewTipBlock]
    case AwaitBlock => [MiningState.Guessing, MiningState.Paused, MiningState.Shutdown, MiningState.NewTipBlock]
    case Guessing => [MiningState.AwaitBlock, MiningState.NewTipBlock, MiningState.Paused, MiningState.Shutdown]
    case NewTipBlock => [MiningState.Init, MiningState.Paused, MiningState.Shutdown]
    case ComposeError => [MiningState.Shutdown]
    case Paused => [MiningState.Init, MiningState.Shutdown]
    case Disabled => []
    case Shutdown => []
  }

  /** The happy path, traversed cyclically. */
  const HAPPY_PATH: seq<MiningState> :=
    [MiningState.Init, MiningState.AwaitBlockProposal, MiningState.Composing,
     MiningState.AwaitBlock, MiningState.Guessing, MiningState.NewTipBlock]

  /** The state after `s` on the cyclic happy path; `None` when `s` is not on it. */
  function HappyNext(s: MiningState): Option<MiningState> {
    match s
    case Init => Some(MiningState.AwaitBlockProposal)
    case AwaitBlockProposal => Some(MiningState.Composing)
    case Composing => Some(MiningState.AwaitBlock)
    case AwaitBlock => Some(MiningState.Guessing)
    case Guessing => Some(MiningState.NewTipBlock)
    case NewTipBlock => Some(MiningState.Init)
    case _ => None
  }

  /** Distance to the end of the role-skipping chain in `advance`; it bounds the recursion. */
  function Rank(s: MiningState): nat {
    match s
    case Init => 4
    case AwaitBlockProposal => 3
    case Composing => 2
    case AwaitBlock => 1
    case _ => 0
  }

  /** `HappyNext` is defined exactly on the happy path. */
  lemma HappyNextOnPath(s: MiningState)
    ensures HappyNext(s).Some? <==> s in HAPPY_PATH
  {
  }

  /** `HappyNext` is the successor in the cyclic windows over `HAPPY_PATH`. */
  lemma HappyNextIsCyclicSuccessor(i: nat)
    requires i < |HAPPY_PATH|
    ensures HappyNext(HAPPY_PATH[i]) == Some(HAPPY_PATH[(i + 1) % |HAPPY_PATH|])
  {
  }

  /** The happy path is allowed by the transition table: every step goes to a state in the row. */
  lemma HappyPathInTable(s: MiningState)
    requires HappyNext(s).Some?
    ensures HappyNext(s).value in Transitions(s)
  {
  }

  /** `unique()` from itertools: keep the first occurrence of every element, in order. */
  function Unique<T(==)>(s: seq<T>): seq<T>
    decreases |s|
  {
    if |s| == 0 then []
    else
      var u := Unique(s[..|s| - 1]);
      if s[|s| - 1] in u then u else u + [s[|s| - 1]]
  }

  lemma {:induction false} UniqueElements<T>(s: seq<T>)
    ensures forall x :: x in Unique(s) <==> x in s
    ensures NoDuplicates(Unique(s))
    decreases |s|
  {
    if |s| > 0 {
      var init := s[..|s| - 1];
      UniqueElements(init);
      assert s == init + [s[|s| - 1]];
    }
  }

  lemma {:induction false} UniqueOfDistinct<T>(s: seq<T>)
    requires NoDuplicates(s)
    ensures Unique(s) == s
    decreases |s|
  {
    if |s| > 0 {
      var init := s[..|s| - 1];
      UniqueOfDistinct(init);
      assert s[|s| - 1] !in init;
      assert init + [s[|s| - 1]] == s;
    }
  }

  /**
   * `merge_set_paused_status`: pausing while already paused keeps the time the
   * pause began and joins the reasons without repeats; pausing from any other
   * status takes the new paused status as it is.
   */
  function MergePaused(current: MiningStatus, incoming: MiningStatus): (r: MiningStatus)
    requires incoming.Paused?
    ensures r.Paused?
    ensures current.Paused? ==> r.since == current.since
    ensures !current.Paused? ==> r == incoming
  {
    match current
    case Paused(t, prior) => MiningStatus.Paused(t, Unique(prior + incoming.reasons))
    case _ => incoming
  }

  lemma MergePausedReasons(current: MiningStatus, incoming: MiningStatus)
    requires incoming.Paused? && current.Paused?
    ensures forall x :: x in MergePaused(current, incoming).reasons <==> x in current.reasons || x in incoming.reasons
    ensures NoDuplicates(MergePaused(current, incoming).reasons)
    ensures NoDuplicates(current.reasons + incoming.reasons) ==>
              MergePaused(current, incoming).reasons == current.reasons + incoming.reasons
  {
    UniqueElements(current.reasons + incoming.reasons);
    if NoDuplicates(current.reasons + incoming.reasons) {
      UniqueOfDistinct(current.reasons + incoming.reasons);
    }
  }

  predicate IsPauseEvent(e: MiningEvent) {
    e.PauseRpc? || e.UnPauseRpc? || e.PauseSyncBlock? || e.UnPauseSyncBlock? ||
    e.PauseNeedConnection? || e.UnPauseNeedConnection?
  }

  /** The reason a pause or unpause event is about. */
  function EventReason(e: MiningEvent): MiningPausedReason
    requires IsPauseEvent(e)
  {
    if e.PauseRpc? || e.UnPauseRpc? then Rpc
    else if e.PauseSyncBlock? || e.UnPauseSyncBlock? then SyncBlocks
    else NeedConnection
  }

  predicate IsPause(e: MiningEvent) {
    e.PauseRpc? || e.PauseSyncBlock? || e.PauseNeedConnection?
  }

  /** The state of the machine as a value: its current status, the pause flags and the roles. */
  datatype Machine = Machine(
    status: MiningStatus,
    pausedWhileSyncing: bool,
    pausedByRpc: bool,
    pausedNeedConnection: bool,
    roleCompose: bool,
    roleGuess: bool)
  {
    /** How many of the three pause flags are set. */
    function PausedCount(): (n: nat)
      ensures n <= 3
      ensures n == 0 <==> !pausedByRpc && !pausedWhileSyncing && !pausedNeedConnection
    {
      (if pausedByRpc then 1 else 0) + (if pausedWhileSyncing then 1 else 0) +
      (if pausedNeedConnection then 1 else 0)
    }

    predicate MiningEnabled() { roleCompose || roleGuess }

    function Flag(reason: MiningPausedReason): bool {
      match reason
      case Rpc => pausedByRpc
      case SyncBlocks => pausedWhileSyncing
      case NeedConnection => pausedNeedConnection
    }

    function WithFlag(reason: MiningPausedReason, b: bool): (m: Machine)
      ensures m.status == status && m.roleCompose == roleCompose && m.roleGuess == roleGuess
      ensures m.Flag(reason) == b
      ensures forall other :: other != reason ==> m.Flag(other) == Flag(other)
    {
      match reason
      case Rpc => this.(pausedByRpc := b)
      case SyncBlocks => this.(pausedWhileSyncing := b)
      case NeedConnection => this.(pausedNeedConnection := b)
    }

    /** `allowed`: may the machine move from its current status to `s`? */
    predicate Allowed(s: MiningStatus) {
      var state := s.State();
      if state == status.State() && state == MiningState.Init then true
      else if s == status then true
      else if !MiningEnabled() then state == MiningState.Disabled
      else if PausedCount() > 1 then state == MiningState.Shutdown
      else if !roleCompose && state == MiningState.Composing then false
      else if !roleGuess && state == MiningState.Guessing then false
      else state in Transitions(status.State())
    }

    /** `pause_by_rpc`, `pause_while_syncing`, `pause_need_connection`. */
    function Pause(reason: MiningPausedReason, now: Time): (m: Machine)
      ensures m.roleCompose == roleCompose && m.roleGuess == roleGuess
      ensures m.Flag(reason) && forall other :: other != reason ==> m.Flag(other) == Flag(other)
      ensures m.status == status || m.status.Paused?
    {
      var s := MiningStatus.Paused(now, [reason]);
      var m := if Allowed(s) then this.(status := MergePaused(status, s)) else this;
      m.WithFlag(reason, true)
    }

    /** `unpause_by_rpc`, `unpause_while_syncing`, `unpause_need_connection`. */
    function Unpause(reason: MiningPausedReason, now: Time): (m: Machine)
      ensures m.roleCompose == roleCompose && m.roleGuess == roleGuess
      ensures !m.Flag(reason) && forall other :: other != reason ==> m.Flag(other) == Flag(other)
      ensures m.status == status || m.status == MiningStatus.Init(now)
    {
      var s := MiningStatus.Init(now);
      var m := if Allowed(s) then this.(status := s) else this;
      m.WithFlag(reason, false)
    }

    /** `set_syncing` and `set_need_connection`: pause or unpause only when the flag differs. */
    function SetPaused(reason: MiningPausedReason, on: bool, now: Time): (m: Machine)
      ensures m.Flag(reason) == on
      ensures Flag(reason) == on ==> m == this
    {
      if Flag(reason) != on then
        if on then Pause(reason, now) else Unpause(reason, now)
      else this
    }

    /** The pause loop of `advance_to` for a paused status: one pause per listed reason. */
    function PauseAll(reasons: seq<MiningPausedReason>, now: Time): (m: Machine)
      ensures m.roleCompose == roleCompose && m.roleGuess == roleGuess
      ensures forall r :: r in reasons ==> m.Flag(r)
      ensures forall r :: r !in reasons ==> m.Flag(r) == Flag(r)
      decreases |reasons|
    {
      if |reasons| == 0 then this
      else Pause(reasons[0], now).PauseAll(reasons[1..], now)
    }

    /**
     * `advance_to`: a paused status becomes one pause per reason and always
     * succeeds; any other status is taken when allowed and refused otherwise,
     * leaving the machine as it was.
     */
    function AdvanceTo(target: MiningStatus, now: Time): (res: (Machine, Result<(), InvalidStateTransition>))
      requires target.Paused? ==> |target.reasons| > 0
      ensures res.0.roleCompose == roleCompose && res.0.roleGuess == roleGuess
      ensures target.Paused? ==> res == (PauseAll(target.reasons, now), Ok(()))
      ensures !target.Paused? && res.1.Ok? ==> res.0 == this.(status := target)
      ensures !target.Paused? ==> (res.1.Ok? <==> Allowed(target))
      ensures res.1.Err? ==> res.0 == this && res.1.error == InvalidStateTransition(status.State(), target.State())
    {
      if target.Paused? then (PauseAll(target.reasons, now), Ok(()))
      else if Allowed(target) then (this.(status := target), Ok(()))
      else (this, Err(InvalidStateTransition(status.State(), target.State())))
    }

    /** The states a role skips over in `advance`: a composer does not wait for proposals or guess itself, a guesser does not compose. */
    predicate Skips(s: MiningState) {
      (roleCompose && (s == MiningState.Guessing || s == MiningState.AwaitBlockProposal)) ||
      (roleGuess && (s == MiningState.Composing || s == MiningState.AwaitBlock))
    }

    /**
     * `advance`: move to the next happy-path state, and on past it while the
     * roles skip it. A successful advance ends on the first happy-path state
     * the roles do not skip; a failed one stops where the refused transition
     * began. Roles and pause flags are never touched.
     */
    function Advance(now: Time): (res: (Machine, Result<(), InvalidStateTransition>))
      requires HappyNext(status.State()).Some?
      ensures res.0.roleCompose == roleCompose && res.0.roleGuess == roleGuess
      ensures forall r :: res.0.Flag(r) == Flag(r)
      ensures res.1.Ok? ==> res.0.status == FromState(FirstUnskipped(this, status.State()), now)
      ensures res.1.Err? ==>
                res.1.error.oldState == res.0.status.State() &&
                !res.0.Allowed(FromState(res.1.error.newState, now))
      decreases Rank(status.State())
    {
      var next := HappyNext(status.State()).value;
      var (m, r) := AdvanceTo(FromState(next, now), now);
      if r.Err? then (m, r)
      else if m.Skips(next) then
        FirstUnskippedRoles(m, this, next);
        m.Advance(now)
      else (m, Ok(()))
    }

    /** `handle_event`. The `Advance` event off the happy path reaches `unreachable!()`. */
    function HandleEvent(event: MiningEvent, now: Time): (res: (Machine, Result<(), InvalidStateTransition>))
      requires event.Advance? ==> HappyNext(status.State()).Some?
      ensures res.0.roleCompose == roleCompose && res.0.roleGuess == roleGuess
      ensures event.PauseRpc? ==> res.1.Ok? && res.0.Flag(Rpc)
      ensures event.UnPauseRpc? ==> res.1.Ok? && !res.0.Flag(Rpc)
      ensures event.PauseSyncBlock? ==> res.1.Ok? && res.0.Flag(SyncBlocks)
      ensures event.UnPauseSyncBlock? ==> res.1.Ok? && !res.0.Flag(SyncBlocks)
      ensures event.PauseNeedConnection? ==> res.1.Ok? && res.0.Flag(NeedConnection)
      ensures event.UnPauseNeedConnection? ==> res.1.Ok? && !res.0.Flag(NeedConnection)
      ensures !event.Advance? && res.1.Err? ==> res.0 == this
    {
      match event
      case Advance => Advance(now)
      case InitEvent => AdvanceTo(MiningStatus.Init(now), now)
      case PauseRpc => (Pause(Rpc, now), Ok(()))
      case UnPauseRpc => (Unpause(Rpc, now), Ok(()))
      case PauseSyncBlock => (Pause(SyncBlocks, now), Ok(()))
      case UnPauseSyncBlock => (Unpause(SyncBlocks, now), Ok(()))
      case PauseNeedConnection => (Pause(NeedConnection, now), Ok(()))
      case UnPauseNeedConnection => (Unpause(NeedConnection, now), Ok(()))
      case NewBlockProposal => AdvanceTo(MiningStatus.AwaitBlock(now), now)
      case NewTipBlockEvent => AdvanceTo(MiningStatus.NewTipBlock(now), now)
      case ComposeErrorEvent => AdvanceTo(MiningStatus.ComposeError(now), now)
      case ShutdownEvent => AdvanceTo(MiningStatus.Shutdown(now), now)
    }

    /** `exec_states`: `advance_to` each status in turn, stopping at the first refusal. */
    function ExecStates(statuses: seq<MiningStatus>, now: Time): (res: (Machine, Result<(), InvalidStateTransition>))
      requires forall i :: 0 <= i < |statuses| ==> !statuses[i].Paused?
      ensures res.0.roleCompose == roleCompose && res.0.roleGuess == roleGuess
      ensures forall r :: res.0.Flag(r) == Flag(r)
      ensures res.1.Ok? && |statuses| > 0 ==> res.0.status == statuses[|statuses| - 1]
      decreases |statuses|
    {
      if |statuses| == 0 then (this, Ok(()))
      else
        var (m, r) := AdvanceTo(statuses[0], now);
        if r.Err? then (m, r) else m.ExecStates(statuses[1..], now)
    }

    predicate CanStartGuessing() { roleGuess && status.State() == MiningState.AwaitBlock }
    predicate CanGuess() { roleGuess && status.State() == MiningState.Guessing }
    predicate CanStartComposing() { roleCompose && status.State() == MiningState.AwaitBlockProposal }
    predicate CanCompose() { roleCompose && status.State() == MiningState.Composing }
  }

  /** `MiningStateMachine::new`: initializing, nothing paused. */
  function NewMachine(roleCompose: bool, roleGuess: bool, now: Time): (m: Machine)
    ensures m.status.State() == MiningState.Init && m.PausedCount() == 0
    ensures m.roleCompose == roleCompose && m.roleGuess == roleGuess
  {
    Machine(MiningStatus.Init(now), false, false, false, roleCompose, roleGuess)
  }

  /** Every pause and unpause event is handled without error and sets exactly its own flag. */
  function ApplyPauseEvents(m: Machine, events: seq<MiningEvent>, now: Time): Machine
    requires forall i :: 0 <= i < |events| ==> IsPauseEvent(events[i])
    decreases |events|
  {
    if |events| == 0 then m
    else
      assert IsPauseEvent(events[0]);
      assert forall i :: 0 <= i < |events| - 1 ==> events[1..][i] == events[i + 1];
      ApplyPauseEvents(m.HandleEvent(events[0], now).0, events[1..], now)
  }

  /** The flag a sequence of pause and unpause events leaves for `reason`: set by the last event about it. */
  function LastFlag(initial: bool, events: seq<MiningEvent>, reason: MiningPausedReason): bool
    requires forall i :: 0 <= i < |events| ==> IsPauseEvent(events[i])
    decreases |events|
  {
    if |events| == 0 then initial
    else
      var last := events[|events| - 1];
      if EventReason(last) == reason then IsPause(last)
      else LastFlag(initial, events[..|events| - 1], reason)
  }

  // ---------------------------------------------------------------------
  // Properties of `allowed`

  /**
   * With a role and at most one pause reason, a change of status is allowed
   * exactly when the transition table lists it and the roles admit it.
   */
  lemma AllowedFollowsTable(m: Machine, s: MiningStatus)
    requires m.MiningEnabled() && m.PausedCount() <= 1
    requires s != m.status && !(s.State() == MiningState.Init && m.status.State() == MiningState.Init)
    ensures m.Allowed(s) <==>
              s.State() in Transitions(m.status.State()) &&
              (s.State() == MiningState.Composing ==> m.roleCompose) &&
              (s.State() == MiningState.Guessing ==> m.roleGuess)
  {
  }

  /** Without any role the only change of status allowed is to `Disabled`. */
  lemma NoRoleOnlyDisabled(m: Machine, s: MiningStatus)
    requires !m.MiningEnabled()
    requires s != m.status && !(s.State() == MiningState.Init && m.status.State() == MiningState.Init)
    ensures m.Allowed(s) <==> s.State() == MiningState.Disabled
  {
  }

  /** With two or more pause reasons the only change of status allowed is to `Shutdown`. */
  lemma MultiplePausesOnlyShutdown(m: Machine, s: MiningStatus)
    requires m.MiningEnabled() && m.PausedCount() > 1
    requires s != m.status && !(s.State() == MiningState.Init && m.status.State() == MiningState.Init)
    ensures m.Allowed(s) <==> s.State() == MiningState.Shutdown
  {
  }

  /** Re-entering Init, and re-setting the identical status, are always allowed. */
  lemma AllowedReentry(m: Machine, s: MiningStatus)
    requires s == m.status || (s.State() == MiningState.Init && m.status.State() == MiningState.Init)
    ensures m.Allowed(s)
  {
  }

  /**
   * `Disabled` and `Shutdown` are final and `ComposeError` only leads to
   * `Shutdown`, as long as a role is set and at most one pause reason holds.
   */
  lemma FinalStates(m: Machine, s: MiningStatus)
    requires m.MiningEnabled() && m.PausedCount() <= 1 && s != m.status
    ensures m.status.State() in {MiningState.Disabled, MiningState.Shutdown} ==> !m.Allowed(s)
    ensures m.status.State() == MiningState.ComposeError ==> (m.Allowed(s) <==> s.State() == MiningState.Shutdown)
    ensures m.status.State() == MiningState.Paused ==>
              (m.Allowed(s) <==> s.State() in {MiningState.Init, MiningState.Shutdown})
  {
  }

  /** A composer-only node never starts guessing and a guesser-only node never starts composing. */
  lemma RolesGateWork(m: Machine, s: MiningStatus)
    requires m.MiningEnabled() && s != m.status
    ensures !m.roleGuess && s.State() == MiningState.Guessing ==> !m.Allowed(s)
    ensures !m.roleCompose && s.State() == MiningState.Composing ==> !m.Allowed(s)
  {
  }

  /** At most one of the four work predicates holds at a time. */
  lemma WorkPredicatesExclusive(m: Machine)
    ensures (if m.CanStartGuessing() then 1 else 0) + (if m.CanGuess() then 1 else 0) +
            (if m.CanStartComposing() then 1 else 0) + (if m.CanCompose() then 1 else 0) <= 1
  {
  }

  // ---------------------------------------------------------------------
  // Properties of `advance`

  /** The first happy-path state after `s` that the roles of `m` do not skip. */
  function FirstUnskipped(m: Machine, s: MiningState): (r: MiningState)
    requires HappyNext(s).Some?
    ensures r in HAPPY_PATH && !m.Skips(r)
    decreases Rank(s)
  {
    var next := HappyNext(s).value;
    if m.Skips(next) then FirstUnskipped(m, next) else next
  }

  lemma {:induction false} FirstUnskippedRoles(m1: Machine, m2: Machine, s: MiningState)
    requires HappyNext(s).Some?
    requires m1.roleCompose == m2.roleCompose && m1.roleGuess == m2.roleGuess
    ensures FirstUnskipped(m1, s) == FirstUnskipped(m2, s)
    decreases Rank(s)
  {
    var next := HappyNext(s).value;
    if m1.Skips(next) {
      FirstUnskippedRoles(m1, m2, next);
    }
  }

  /** With both roles and at most one pause reason, `advance` from a happy-path state always succeeds. */
  lemma {:induction false} AdvanceSucceedsWithBothRoles(m: Machine, now: Time)
    requires m.roleCompose && m.roleGuess && m.PausedCount() <= 1
    requires HappyNext(m.status.State()).Some?
    ensures m.Advance(now).1.Ok?
    decreases Rank(m.status.State())
  {
    var next := HappyNext(m.status.State()).value;
    var target := FromState(next, now);
    HappyPathInTable(m.status.State());
    assert m.Allowed(target);
    var m1 := m.AdvanceTo(target, now).0;
    assert m1 == m.(status := target);
    if m1.Skips(next) {
      assert m1.PausedCount() == m.PausedCount();
      AdvanceSucceedsWithBothRoles(m1, now);
    }
  }

  /** With both roles `advance` goes from Init straight to NewTipBlock, and from NewTipBlock back to Init. */
  lemma AdvanceBothRoles(now: Time)
    ensures var m := NewMachine(true, true, now);
      var (m', r) := m.Advance(now);
      r.Ok? && m'.status == MiningStatus.NewTipBlock(now) &&
      var (m'', r') := m'.Advance(now);
      r'.Ok? && m''.status == MiningStatus.Init(now)
  {
    var m := NewMachine(true, true, now);
    AdvanceSucceedsWithBothRoles(m, now);
    FirstUnskippedWithBothRoles(m);
    var m' := m.Advance(now).0;
    assert m'.Flag(Rpc) == m.Flag(Rpc) && m'.Flag(SyncBlocks) == m.Flag(SyncBlocks) &&
           m'.Flag(NeedConnection) == m.Flag(NeedConnection);
    AdvanceSucceedsWithBothRoles(m', now);
    FirstUnskippedWithBothRoles(m');
  }

  /** With both roles every waiting, composing and guessing state is skipped: Init leads to NewTipBlock, NewTipBlock to Init. */
  lemma FirstUnskippedWithBothRoles(m: Machine)
    requires m.roleCompose && m.roleGuess
    ensures FirstUnskipped(m, MiningState.Init) == MiningState.NewTipBlock
    ensures FirstUnskipped(m, MiningState.NewTipBlock) == MiningState.Init
  {
    assert FirstUnskipped(m, MiningState.Guessing) == MiningState.NewTipBlock;
    assert FirstUnskipped(m, MiningState.AwaitBlock) == MiningState.NewTipBlock;
    assert FirstUnskipped(m, MiningState.Composing) == MiningState.NewTipBlock;
    assert FirstUnskipped(m, MiningState.AwaitBlockProposal) == MiningState.NewTipBlock;
  }

  /** The statuses of the full happy path, returning to Init. */
  function HappyPathStatuses(now: Time): seq<MiningStatus> {
    [MiningStatus.Init(now), MiningStatus.AwaitBlockProposal(now), MiningStatus.Composing(now),
     MiningStatus.AwaitBlock(now), MiningStatus.Guessing(now, None), MiningStatus.NewTipBlock(now),
     MiningStatus.Init(now)]
  }

  /** One allowed, non-paused step of `exec_states`. */
  lemma ExecStatesStep(m: Machine, statuses: seq<MiningStatus>, now: Time)
    requires |statuses| > 0 && forall i :: 0 <= i < |statuses| ==> !statuses[i].Paused?
    requires m.Allowed(statuses[0])
    ensures m.ExecStates(statuses, now) == m.(status := statuses[0]).ExecStates(statuses[1..], now)
  {
  }

  /** The machine `exec_states` has reached before trying `statuses[i]`, when every earlier step was allowed. */
  function StepFrom(m: Machine, statuses: seq<MiningStatus>, i: nat): (r: Machine)
    requires i <= |statuses|
    ensures r.roleCompose == m.roleCompose && r.roleGuess == m.roleGuess && r.PausedCount() == m.PausedCount()
  {
    if i == 0 then m else m.(status := statuses[i - 1])
  }

  /** When every status is allowed from the one before it, `exec_states` succeeds and ends in the last status. */
  lemma {:induction false} ExecStatesSucceeds(m: Machine, statuses: seq<MiningStatus>, now: Time)
    requires forall i :: 0 <= i < |statuses| ==> !statuses[i].Paused?
    requires forall i :: 0 <= i < |statuses| ==> StepFrom(m, statuses, i).Allowed(statuses[i])
    ensures m.ExecStates(statuses, now) == (StepFrom(m, statuses, |statuses|), Ok(()))
    decreases |statuses|
  {
    if |statuses| > 0 {
      assert StepFrom(m, statuses, 0).Allowed(statuses[0]);
      ExecStatesStep(m, statuses, now);
      var m' := m.(status := statuses[0]);
      var rest := statuses[1..];
      forall i | 0 <= i < |rest|
        ensures StepFrom(m', rest, i).Allowed(rest[i])
      {
        assert StepFrom(m', rest, i) == StepFrom(m, statuses, i + 1) && rest[i] == statuses[i + 1];
      }
      assert StepFrom(m', rest, |rest|) == StepFrom(m, statuses, |statuses|);
      ExecStatesSucceeds(m', rest, now);
    }
  }

  /** `exec_states` over two lists runs the second from where the first ended, unless the first was refused. */
  lemma {:induction false} ExecStatesAppend(m: Machine, a: seq<MiningStatus>, b: seq<MiningStatus>, now: Time)
    requires forall i :: 0 <= i < |a| ==> !a[i].Paused?
    requires forall i :: 0 <= i < |b| ==> !b[i].Paused?
    ensures forall i :: 0 <= i < |a + b| ==> !(a + b)[i].Paused?
    ensures m.ExecStates(a + b, now) ==
            (var (m', r) := m.ExecStates(a, now); if r.Err? then (m', r) else m'.ExecStates(b, now))
    decreases |a|
  {
    if |a| == 0 {
      assert a + b == b;
    } else {
      assert (a + b)[0] == a[0] && (a + b)[1..] == a[1..] + b;
      var (m1, r1) := m.AdvanceTo(a[0], now);
      if r1.Ok? {
        ExecStatesAppend(m1, a[1..], b, now);
      }
    }
  }

  /** With both roles and nothing paused, each status of the happy path up to Composing is allowed from the one before it. */
  lemma HappyPathStepsAllowedToComposing(m: Machine, now: Time)
    requires m.status.State() == MiningState.Init && m.roleCompose && m.PausedCount() == 0
    ensures var st := HappyPathStatuses(now);
            && m.Allowed(st[0])
            && m.(status := st[0]).Allowed(st[1])
            && m.(status := st[1]).Allowed(st[2])
  {
  }

  /** With both roles and nothing paused, each status of the happy path after Composing is allowed from the one before it. */
  lemma HappyPathStepsAllowedFromComposing(m: Machine, now: Time)
    requires m.roleCompose && m.roleGuess && m.PausedCount() == 0
    ensures var st := HappyPathStatuses(now);
            && m.(status := st[2]).Allowed(st[3])
            && m.(status := st[3]).Allowed(st[4])
            && m.(status := st[4]).Allowed(st[5])
            && m.(status := st[5]).Allowed(st[6])
  {
  }

  /** Walking the happy path status by status succeeds with both roles, ending back in Init. */
  lemma HappyPathWithBothRoles(now: Time)
    ensures NewMachine(true, true, now).ExecStates(HappyPathStatuses(now), now) ==
            (NewMachine(true, true, now).(status := MiningStatus.Init(now)), Ok(()))
  {
    var st := HappyPathStatuses(now);
    var m := NewMachine(true, true, now);
    HappyPathStepsAllowedToComposing(m, now);
    HappyPathStepsAllowedFromComposing(m, now);
    forall i | 0 <= i < |st|
      ensures StepFrom(m, st, i).Allowed(st[i])
    {
      if i == 0 {} else if i == 1 {} else if i == 2 {} else if i == 3 {} else if i == 4 {} else if i == 5 {} else {}
    }
    ExecStatesSucceeds(m, st, now);
  }

  /** A refused step ends `exec_states` with the machine unchanged. */
  lemma ExecStatesRefused(m: Machine, statuses: seq<MiningStatus>, now: Time)
    requires |statuses| > 0 && forall i :: 0 <= i < |statuses| ==> !statuses[i].Paused?
    requires !m.Allowed(statuses[0])
    ensures m.ExecStates(statuses, now) == (m, Err(InvalidStateTransition(m.status.State(), statuses[0].State())))
  {
  }

  /** A composer-only node is refused at the step from AwaitBlock to Guessing. */
  lemma HappyPathComposerOnlyRefused(now: Time)
    ensures NewMachine(true, false, now).ExecStates(HappyPathStatuses(now), now) ==
            (NewMachine(true, false, now).(status := MiningStatus.AwaitBlock(now)),
             Err(InvalidStateTransition(MiningState.AwaitBlock, MiningState.Guessing)))
  {
    var st := HappyPathStatuses(now);
    var c := NewMachine(true, false, now);
    var done, rest := st[..4], st[4..];
    HappyPathStepsAllowedToComposing(c, now);
    ComposerOnlyStopsAtGuessing(c, now);
    forall i | 0 <= i < |done|
      ensures StepFrom(c, done, i).Allowed(done[i])
    {
      if i == 0 {} else if i == 1 {} else if i == 2 {} else {}
    }
    ExecStatesSucceeds(c, done, now);
    ExecStatesRefused(c.(status := st[3]), rest, now);
    ExecStatesAppend(c, done, rest, now);
    assert done + rest == st;
  }

  /** A composer-only node may go from Composing to AwaitBlock but not on to Guessing. */
  lemma ComposerOnlyStopsAtGuessing(m: Machine, now: Time)
    requires m.roleCompose && !m.roleGuess && m.PausedCount() == 0
    ensures var st := HappyPathStatuses(now);
            m.(status := st[2]).Allowed(st[3]) && !m.(status := st[3]).Allowed(st[4])
  {
  }

  /** A guesser-only node is refused at the step from AwaitBlockProposal to Composing. */
  lemma HappyPathGuesserOnlyRefused(now: Time)
    ensures NewMachine(false, true, now).ExecStates(HappyPathStatuses(now), now) ==
            (NewMachine(false, true, now).(status := MiningStatus.AwaitBlockProposal(now)),
             Err(InvalidStateTransition(MiningState.AwaitBlockProposal, MiningState.Composing)))
  {
    var st := HappyPathStatuses(now);
    var g := NewMachine(false, true, now);
    var done, rest := st[..2], st[2..];
    assert g.Allowed(st[0]);
    assert g.(status := st[0]).Allowed(st[1]);
    forall i | 0 <= i < |done|
      ensures StepFrom(g, done, i).Allowed(done[i])
    {
      if i == 0 {} else {}
    }
    ExecStatesSucceeds(g, done, now);
    assert !g.(status := st[1]).Allowed(rest[0]);
    ExecStatesRefused(g.(status := st[1]), rest, now);
    ExecStatesAppend(g, done, rest, now);
    assert done + rest == st;
  }

  // ---------------------------------------------------------------------
  // Properties of pausing

  lemma OnlyOneFlag(m: Machine, reason: MiningPausedReason)
    requires forall other :: other != reason ==> !m.Flag(other)
    ensures m.PausedCount() <= 1
  {
    match reason
    case Rpc => assert !m.Flag(SyncBlocks) && !m.Flag(NeedConnection);
    case SyncBlocks => assert !m.Flag(Rpc) && !m.Flag(NeedConnection);
    case NeedConnection => assert !m.Flag(Rpc) && !m.Flag(SyncBlocks);
  }

  /** The statuses reachable along the happy path, and Paused, give way to a pause; ComposeError, Disabled and Shutdown do not. */
  predicate PausableState(s: MiningState) {
    s in HAPPY_PATH || s == MiningState.Paused
  }

  /**
   * With both roles and no other pause reason set, a pause moves every
   * pausable state to Paused and leaves ComposeError, Disabled and Shutdown
   * as they are; the flag of the reason is set either way.
   */
  lemma PauseOutcome(m: Machine, reason: MiningPausedReason, now: Time)
    requires m.roleCompose && m.roleGuess
    requires forall other :: other != reason ==> !m.Flag(other)
    ensures var m' := m.Pause(reason, now);
      m'.Flag(reason) &&
      (PausableState(m.status.State()) ==> m'.status.State() == MiningState.Paused) &&
      (!PausableState(m.status.State()) ==> m'.status == m.status)
  {
    var s := MiningStatus.Paused(now, [reason]);
    OnlyOneFlag(m, reason);
    if m.status.State() in HAPPY_PATH {
      assert MiningState.Paused in Transitions(m.status.State());
      assert m.Allowed(s);
    }
  }

  /**
   * Pausing and then unpausing for the same reason, with both roles and no
   * other reason set, ends in Init from every pausable state and leaves
   * ComposeError, Disabled and Shutdown alone; the flag ends cleared.
   */
  lemma {:induction false} PauseThenUnpause(m: Machine, reason: MiningPausedReason, now: Time)
    requires m.roleCompose && m.roleGuess
    requires forall other :: other != reason ==> !m.Flag(other)
    ensures var m' := m.Pause(reason, now).Unpause(reason, now);
      !m'.Flag(reason) &&
      (PausableState(m.status.State()) ==> m'.status == MiningStatus.Init(now)) &&
      (!PausableState(m.status.State()) ==> m'.status == m.status)
  {
    PauseOutcome(m, reason, now);
    var p := m.Pause(reason, now);
    OnlyOneFlag(p, reason);
    if PausableState(m.status.State()) {
      assert p.Allowed(MiningStatus.Init(now));
    } else {
      assert p.status == m.status;
      assert !p.Allowed(MiningStatus.Init(now)) by {
        FinalStates(p, MiningStatus.Init(now));
      }
    }
  }

  /** Setting the same pause flag twice is the same as setting it once. */
  lemma SetPausedIdempotent(m: Machine, reason: MiningPausedReason, on: bool, now: Time)
    ensures m.SetPaused(reason, on, now).SetPaused(reason, on, now) == m.SetPaused(reason, on, now)
  {
  }

  /** After any sequence of pause and unpause events each flag records the last event about its reason. */
  lemma {:induction false} FlagsTrackLastEvent(m: Machine, events: seq<MiningEvent>, now: Time, reason: MiningPausedReason)
    requires forall i :: 0 <= i < |events| ==> IsPauseEvent(events[i])
    ensures ApplyPauseEvents(m, events, now).Flag(reason) == LastFlag(m.Flag(reason), events, reason)
    decreases |events|
  {
    if |events| > 0 {
      var m1 := m.HandleEvent(events[0], now).0;
      FlagsTrackLastEvent(m1, events[1..], now, reason);
      LastFlagCons(m.Flag(reason), events, reason);
    }
  }

  /** `LastFlag` read from the front: the first event about `reason` sets the starting flag for the rest. */
  lemma {:induction false} LastFlagCons(initial: bool, events: seq<MiningEvent>, reason: MiningPausedReason)
    requires |events| > 0 && forall i :: 0 <= i < |events| ==> IsPauseEvent(events[i])
    ensures LastFlag(initial, events, reason) ==
            LastFlag(if EventReason(events[0]) == reason then IsPause(events[0]) else initial, events[1..], reason)
    decreases |events|
  {
    if |events| > 1 {
      var init := events[..|events| - 1];
      assert init[1..] == events[1..][..|events[1..]| - 1];
      LastFlagCons(initial, init, reason);
    }
  }

  /** The paused count after pause and unpause events is the number of reasons whose last event paused. */
  lemma PausedCountAfterEvents(m: Machine, events: seq<MiningEvent>, now: Time)
    requires forall i :: 0 <= i < |events| ==> IsPauseEvent(events[i])
    ensures ApplyPauseEvents(m, events, now).PausedCount() ==
            (if LastFlag(m.Flag(Rpc), events, Rpc) then 1 else 0) +
            (if LastFlag(m.Flag(SyncBlocks), events, SyncBlocks) then 1 else 0) +
            (if LastFlag(m.Flag(NeedConnection), events, NeedConnection) then 1 else 0)
  {
    FlagsTrackLastEvent(m, events, now, Rpc);
    FlagsTrackLastEvent(m, events, now, SyncBlocks);
    FlagsTrackLastEvent(m, events, now, NeedConnection);
  }

  // ---------------------------------------------------------------------
  // The machine as the source keeps it: an object whose methods update its fields.

  class MiningStateMachine {
    var status: MiningStatus
    var pausedWhileSyncing: bool
    var pausedByRpc: bool
    var pausedNeedConnection: bool
    var roleCompose: bool
    var roleGuess: bool

    function View(): Machine
      reads this
    {
      Machine(status, pausedWhileSyncing, pausedByRpc, pausedNeedConnection, roleCompose, roleGuess)
    }

    constructor (roleCompose: bool, roleGuess: bool, now: Time)
      ensures View() == NewMachine(roleCompose, roleGuess, now)
    {
      status := MiningStatus.Init(now);
      pausedWhileSyncing := false;
      pausedByRpc := false;
      pausedNeedConnection := false;
      this.roleCompose := roleCompose;
      this.roleGuess := roleGuess;
    }

    method MergeSetPausedStatus(newStatus: MiningStatus)
      requires newStatus.Paused?
      modifies this
      ensures View() == old(View()).(status := MergePaused(old(status), newStatus))
    {
      var merged := MergePaused(status, newStatus);
      match status
      case Paused(oldTime, oldReasons) =>
        status := MiningStatus.Paused(oldTime, Unique(oldReasons + newStatus.reasons));
        assert status == merged;
      case _ =>
        status := newStatus;
    }

    method SetFlag(reason: MiningPausedReason, b: bool)
      modifies this
      ensures View() == old(View()).WithFlag(reason, b)
    {
      match reason
      case Rpc => pausedByRpc := b;
      case SyncBlocks => pausedWhileSyncing := b;
      case NeedConnection => pausedNeedConnection := b;
    }

    /** `pause`, dispatching to the three `pause_*` methods. */
    method Pause(reason: MiningPausedReason, now: Time)
      modifies this
      ensures View() == old(View()).Pause(reason, now)
    {
      var newStatus := MiningStatus.Paused(now, [reason]);
      if View().Allowed(newStatus) {
        MergeSetPausedStatus(newStatus);
      }
      SetFlag(reason, true);
    }

    /** The three `unpause_*` methods. */
    method Unpause(reason: MiningPausedReason, now: Time)
      modifies this
      ensures View() == old(View()).Unpause(reason, now)
    {
      var newStatus := MiningStatus.Init(now);
      if View().Allowed(newStatus) {
        status := newStatus;
      }
      SetFlag(reason, false);
    }

    method SetSyncing(syncing: bool, now: Time)
      modifies this
      ensures View() == old(View()).SetPaused(SyncBlocks, syncing, now)
    {
      if pausedWhileSyncing != syncing {
        if syncing { Pause(SyncBlocks, now); } else { Unpause(SyncBlocks, now); }
      }
    }

    method SetNeedConnection(needConnection: bool, now: Time)
      modifies this
      ensures View() == old(View()).SetPaused(NeedConnection, needConnection, now)
    {
      if pausedNeedConnection != needConnection {
        if needConnection { Pause(NeedConnection, now); } else { Unpause(NeedConnection, now); }
      }
    }

    method AdvanceTo(newStatus: MiningStatus, now: Time) returns (r: Result<(), InvalidStateTransition>)
      requires newStatus.Paused? ==> |newStatus.reasons| > 0
      modifies this
      ensures (View(), r) == old(View()).AdvanceTo(newStatus, now)
    {
      if newStatus.Paused? {
        var i := 0;
        while i < |newStatus.reasons|
          invariant 0 <= i <= |newStatus.reasons|
          invariant old(View()).PauseAll(newStatus.reasons, now) == View().PauseAll(newStatus.reasons[i..], now)
        {
          assert newStatus.reasons[i..][1..] == newStatus.reasons[i + 1..];
          Pause(newStatus.reasons[i], now);
          i := i + 1;
        }
        r := Ok(());
      } else if View().Allowed(newStatus) {
        status := newStatus;
        r := Ok(());
      } else {
        r := Err(InvalidStateTransition(status.State(), newStatus.State()));
      }
    }

    method Advance(now: Time) returns (r: Result<(), InvalidStateTransition>)
      requires HappyNext(status.State()).Some?
      modifies this
      ensures (View(), r) == old(View()).Advance(now)
      decreases Rank(status.State())
    {
      var next := HappyNext(status.State()).value;
      r := AdvanceTo(FromState(next, now), now);
      if r.Err? {
        return;
      }
      if View().Skips(next) {
        r := Advance(now);
      }
    }

    method HandleEvent(event: MiningEvent, now: Time) returns (r: Result<(), InvalidStateTransition>)
      requires event.Advance? ==> HappyNext(status.State()).Some?
      modifies this
      ensures (View(), r) == old(View()).HandleEvent(event, now)
    {
      r := Ok(());
      match event
      case Advance => r := Advance(now);
      case InitEvent => r := AdvanceTo(MiningStatus.Init(now), now);
      case PauseRpc => Pause(Rpc, now);
      case UnPauseRpc => Unpause(Rpc, now);
      case PauseSyncBlock => Pause(SyncBlocks, now);
      case UnPauseSyncBlock => Unpause(SyncBlocks, now);
      case PauseNeedConnection => Pause(NeedConnection, now);
      case UnPauseNeedConnection => Unpause(NeedConnection, now);
      case NewBlockProposal => r := AdvanceTo(MiningStatus.AwaitBlock(now), now);
      case NewTipBlockEvent => r := AdvanceTo(MiningStatus.NewTipBlock(now), now);
      case ComposeErrorEvent => r := AdvanceTo(MiningStatus.ComposeError(now), now);
      case ShutdownEvent => r := AdvanceTo(MiningStatus.Shutdown(now), now);
    }
  }
}
