/**
  The description slots and the signalling state of a peer connection, over set-description
  calls that are awaited one after the other. Descriptions are offers, answers and rollbacks.
 */
module Signaling {
  import opened Wrappers

  datatype Kind = Offer | Answer | Rollback

  /** What the guards ask of a description; sdp stands for its text, 0 for the empty text. */
  datatype Description = Description(kind: Kind, sdp: nat, noMedia: bool, data: bool, credentials: Option<nat>)

  datatype SignalingState = Stable | HaveLocalOffer | HaveRemoteOffer

  datatype Slots = Slots(
    pendingLocal: Option<Description>,
    currentLocal: Option<Description>,
    pendingRemote: Option<Description>,
    currentRemote: Option<Description>,
    local: Option<Description>,        // _localDescription
    remote: Option<Description>)       // _remoteDescription

  datatype State = State(
    slots: Slots,
    signaling: SignalingState,
    restartOffer: bool,                // _jsOnlyIceRestartOfferPending
    restartRemote: bool,               // _jsOnlyIceRestartRemoteOffer
    iceRestart: bool,                  // _iceRestartPending
    lastOffer: Option<Description>,
    lastAnswer: Option<Description>)

  /** What the native connection and the caller's objects contribute to a call. */
  datatype Env = Env(
    present: bool,                     // there is a native connection
    rollbackWorks: bool,
    setWorks: bool,
    description: Description,          // what the native side reports after a set
    gatheringNew: bool,
    validSyntax: bool,
    restartMark: bool,                 // the argument is marked as an ICE restart without native support
    createdHere: bool,                 // the argument is an answer made by this connection
    answered: Option<Description>)     // what the answering connection reports for the argument

  datatype Result = Applied | AlreadyApplied | InvalidState | InvalidModification | Failed

  datatype Step =
    | SetLocal(description: Description, env: Env)
    | SetRemote(description: Description, env: Env)
    | CreatedOffer(description: Description, restart: bool)
    | CreatedAnswer(description: Description)
    | RestartIce
    | RefreshLocal(description: Description, syncs: bool)
    | RefreshRemote(description: Description)
    | NativeSignaling(state: SignalingState, suppressed: bool)

  // ---- slots ----------------------------------------------------------------

  function Or<T>(a: Option<T>, b: Option<T>): Option<T> { if a.Some? then a else b }

  function SetPendingLocal(s: Slots, d: Option<Description>): Slots {
    s.(pendingLocal := d, local := Or(d, s.currentLocal))
  }

  function CommitLocal(s: Slots, d: Option<Description>): Slots {
    var current := Or(d, s.currentLocal);
    s.(pendingLocal := None, currentLocal := current, local := current)
  }

  function RollbackLocal(s: Slots): Slots { s.(pendingLocal := None, local := s.currentLocal) }

  function SetPendingRemote(s: Slots, d: Option<Description>): Slots {
    s.(pendingRemote := d, remote := Or(d, s.currentRemote))
  }

  function CommitRemote(s: Slots, d: Option<Description>): Slots {
    var current := Or(d, s.currentRemote);
    s.(pendingRemote := None, currentRemote := current, remote := current)
  }

  function RollbackRemote(s: Slots): Slots { s.(pendingRemote := None, remote := s.currentRemote) }

  function IsOffer(d: Option<Description>): bool { d.Some? && d.value.kind == Offer }

  function IsAnswer(d: Option<Description>): bool { d.Some? && d.value.kind == Answer }

  function HasData(d: Option<Description>): bool { d.Some? && d.value.data }

  /** _descriptionSignalingState: what the slots say. */
  function Derived(s: Slots): SignalingState {
    if IsOffer(s.pendingLocal) then HaveLocalOffer
    else if IsOffer(s.pendingRemote) then HaveRemoteOffer
    else Stable
  }

  function DifferentCredentials(a: Description, b: Description): bool {
    a.credentials.Some? && b.credentials.Some? && a.credentials != b.credentials
  }

  function Synced(s: State): State {
    s.(signaling := if s.restartOffer then HaveLocalOffer else Derived(s.slots))
  }

  function SyncedFromNative(s: State, v: Env): State { if v.present then Synced(s) else s }

  // ---- guards ---------------------------------------------------------------

  function CanApplyNativeIceCredentials(s: State, v: Env): bool {
    v.gatheringNew && s.slots.local.None? && s.slots.currentLocal.None? && s.slots.pendingLocal.None?
  }

  function DataOnlyLocalOffer(s: State, d: Description): bool {
    && !s.iceRestart && s.signaling == Stable
    && IsOffer(s.slots.currentLocal) && IsAnswer(s.slots.currentRemote)
    && HasData(s.slots.currentLocal) && HasData(s.slots.currentRemote)
    && d.data && !DifferentCredentials(d, s.slots.currentLocal.value)
  }

  function DataOnlyLocalAnswer(s: State, d: Description): bool {
    && IsOffer(s.slots.pendingRemote) && IsOffer(s.slots.currentRemote) && IsAnswer(s.slots.currentLocal)
    && HasData(s.slots.pendingRemote) && HasData(s.slots.currentRemote) && HasData(s.slots.currentLocal)
    && !DifferentCredentials(s.slots.pendingRemote.value, s.slots.currentRemote.value)
    && d.data && !DifferentCredentials(d, s.slots.currentLocal.value)
  }

  function DataOnlyRemoteOffer(s: State, d: Description): bool {
    && s.signaling == Stable
    && IsOffer(s.slots.currentRemote) && IsAnswer(s.slots.currentLocal)
    && d.data && HasData(s.slots.currentRemote) && HasData(s.slots.currentLocal)
    && !DifferentCredentials(d, s.slots.currentRemote.value)
  }

  function DataOnlyRemoteAnswer(s: State, d: Description): bool {
    && IsOffer(s.slots.pendingLocal) && IsOffer(s.slots.currentLocal) && IsAnswer(s.slots.currentRemote)
    && d.data && HasData(s.slots.pendingLocal) && HasData(s.slots.currentLocal) && HasData(s.slots.currentRemote)
    && !DifferentCredentials(s.slots.pendingLocal.value, s.slots.currentLocal.value)
    && !DifferentCredentials(d, s.slots.currentRemote.value)
  }

  function RestartRemoteOffer(s: State, d: Description, v: Env): bool {
    || v.restartMark
    || (d.data && HasData(s.slots.currentRemote) && DifferentCredentials(d, s.slots.currentRemote.value))
  }

  // ---- setLocalDescription --------------------------------------------------

  /** An empty text stands for the description created last. */
  function Normalized(d: Description, last: Option<Description>): Description {
    if d.sdp == 0 && last.Some? then last.value else d
  }

  function MatchesLast(d: Description, last: Option<Description>): bool { last.Some? && d.sdp == last.value.sdp }

  /** The explicit rollback of setLocalDescription: slots first, then the native states, then stable. */
  function UndoLocalOffer(s: State, v: Env): State {
    SyncedFromNative(s.(slots := RollbackLocal(s.slots)), v).(signaling := Stable)
  }

  /** _implicitRollbackLocalDescription, which a remote offer runs on its own; field by field. */
  function ImplicitRollback(s: State, v: Env): (State, Result) {
    if s.slots.local.Some? && !s.slots.local.value.noMedia && !v.rollbackWorks then (s, Failed)
    else
      var current := s.slots.currentLocal;
      var t := s.(slots := s.slots.(pendingLocal := None, local := current));
      var u := if v.present then t.(signaling := if t.restartOffer then HaveLocalOffer else Derived(t.slots)) else t;
      (u.(signaling := Stable), Applied)
  }

  function NativeBacked(d: Option<Description>): bool { d.Some? && !d.value.noMedia }

  function LocalRollback(s: State, v: Env): (State, Result) {
    if s.signaling != HaveLocalOffer then (s, InvalidState)
    else if NativeBacked(s.slots.local) && !v.rollbackWorks then (s, Failed)
    else (UndoLocalOffer(s, v), Applied)
  }

  function CommitAnswer(s: Slots, answer: Option<Description>): Slots {
    CommitLocal(CommitRemote(s, Or(s.pendingRemote, s.remote)), answer)
  }

  function OfferToNative(s: State, d: Description, v: Env): (State, Result) {
    var restart := s.iceRestart || v.restartMark;
    if restart && !CanApplyNativeIceCredentials(s, v) then
      (Synced(s.(slots := SetPendingLocal(s.slots, Some(d)), restartOffer := true)).(iceRestart := false), Applied)
    else if !v.setWorks then (s, Failed)
    else
      (Synced(s.(slots := SetPendingLocal(s.slots, Some(v.description.(kind := Offer))))).(iceRestart := false), Applied)
  }

  function LocalOffer(s: State, given: Description, v: Env): (State, Result) {
    var d := Normalized(given, s.lastOffer);
    if s.signaling == HaveRemoteOffer then (s, InvalidState)
    else if !MatchesLast(d, s.lastOffer) then (s, InvalidModification)
    else if d.noMedia then
      (s.(slots := SetPendingLocal(s.slots, Some(d)), signaling := HaveLocalOffer), Applied)
    else if DataOnlyLocalOffer(s, d) then (Synced(s.(slots := SetPendingLocal(s.slots, Some(d)))), Applied)
    else OfferToNative(s, d, v)
  }

  /** The guard that takes an answer for one already in force. */
  function AnswerAlreadyApplied(s: State, d: Description, v: Env): bool {
    IsAnswer(s.slots.local) && (s.slots.local.value.sdp == d.sdp || v.createdHere)
  }

  function AnswerToNative(s: State, v: Env): (State, Result) {
    if IsAnswer(s.slots.local) && s.slots.pendingRemote.None? then
      (Synced(SyncedFromNative(s, v).(slots := CommitAnswer(s.slots, s.slots.local))), Applied)
    else if !v.setWorks then (s, Failed)
    else (Synced(s.(slots := CommitAnswer(s.slots, Some(v.description.(kind := Answer))))), Applied)
  }

  function LocalAnswer(s: State, given: Description, v: Env): (State, Result) {
    var d := Normalized(given, s.lastAnswer);
    var already := AnswerAlreadyApplied(s, d, v);
    if !already && s.signaling != HaveRemoteOffer then (s, InvalidState)
    else if !MatchesLast(d, s.lastAnswer) then (s, InvalidModification)
    else if already then (SyncedFromNative(s, v), AlreadyApplied)
    else if d.noMedia then (s.(slots := CommitAnswer(s.slots, Some(d)), signaling := Stable), Applied)
    else if s.restartRemote then
      (s.(slots := CommitAnswer(s.slots, Some(d)), signaling := Stable, restartRemote := false), Applied)
    else if DataOnlyLocalAnswer(s, d) then (Synced(s.(slots := CommitAnswer(s.slots, Some(d)))), Applied)
    else AnswerToNative(s, v)
  }

  function SetLocalDescription(s: State, d: Description, v: Env): (State, Result) {
    match d.kind
    case Rollback => LocalRollback(s, v)
    case Offer => LocalOffer(s, d, v)
    case Answer => LocalAnswer(s, d, v)
  }

  // ---- setRemoteDescription -------------------------------------------------

  function RemoteRollback(s: State, v: Env): (State, Result) {
    if s.signaling != HaveRemoteOffer then (s, InvalidState)
    else if NativeBacked(s.slots.remote) && !v.rollbackWorks then (s, Failed)
    else (SyncedFromNative(s.(slots := RollbackRemote(s.slots)), v).(signaling := Stable), Applied)
  }

  /** A remote offer once no local offer is in the way. */
  function RemoteOfferTaken(s: State, d: Description, v: Env): (State, Result) {
    var pending := SetPendingRemote(s.slots, Some(d));
    if !v.validSyntax then (s, Failed)
    else if RestartRemoteOffer(s, d, v) then
      (s.(slots := pending, signaling := HaveRemoteOffer, restartRemote := true), Applied)
    else if DataOnlyRemoteOffer(s, d) then (Synced(s.(slots := pending)), Applied)
    else if d.noMedia then
      (s.(slots := SetPendingRemote(RollbackLocal(s.slots), Some(d)), signaling := HaveRemoteOffer), Applied)
    else if s.signaling == HaveRemoteOffer then (s.(slots := pending), Applied)
    else if !v.setWorks then (s, Failed)
    else (Synced(s.(slots := SetPendingRemote(RollbackLocal(s.slots), Some(d)))), Applied)
  }

  function RemoteOffer(s: State, d: Description, v: Env): (State, Result) {
    if s.signaling != HaveLocalOffer then RemoteOfferTaken(s, d, v)
    else
      var (t, undone) := ImplicitRollback(s, v);
      if undone != Applied then (t, undone) else RemoteOfferTaken(t, d, v)
  }

  /** The pending local offer and the answer to it become current. */
  function CommitOffer(s: Slots, answer: Option<Description>): Slots {
    CommitRemote(CommitLocal(s, Or(s.pendingLocal, s.local)), answer)
  }

  function RemoteAnswer(s: State, d: Description, v: Env): (State, Result) {
    var answer := if v.answered.Some? then v.answered.value.(kind := Answer) else d;
    if s.signaling != HaveLocalOffer && !s.restartOffer then (s, InvalidState)
    else if !v.validSyntax then (s, Failed)
    else if v.restartMark || s.restartOffer then
      (s.(slots := CommitOffer(s.slots, Some(answer)), signaling := Stable, restartOffer := false,
          iceRestart := false), Applied)
    else if DataOnlyRemoteAnswer(s, d) then (Synced(s.(slots := CommitOffer(s.slots, Some(answer)))), Applied)
    else if d.noMedia then (s.(slots := CommitOffer(s.slots, Some(d)), signaling := Stable), Applied)
    else if !v.setWorks then (s, Failed)
    else (Synced(s.(slots := CommitOffer(s.slots, Some(answer)))), Applied)
  }

  function SetRemoteDescription(s: State, d: Description, v: Env): (State, Result) {
    match d.kind
    case Rollback => RemoteRollback(s, v)
    case Offer => RemoteOffer(s, d, v)
    case Answer => RemoteAnswer(s, d, v)
  }

  // ---- native refreshes -----------------------------------------------------

  function SameKind(a: Option<Description>, d: Description): bool { a.Some? && a.value.kind == d.kind }

  function RefreshedLocal(s: Slots, d: Description): Slots {
    if SameKind(s.pendingLocal, d) then s.(local := Some(d), pendingLocal := Some(d))
    else s.(local := Some(d), currentLocal := Some(d))
  }

  function RefreshedRemote(s: Slots, d: Description): Slots {
    if SameKind(s.pendingRemote, d) then s.(remote := Some(d), pendingRemote := Some(d))
    else s.(remote := Some(d), currentRemote := Some(d))
  }

  /** A signalling change reported by the native side. */
  function HearSignaling(s: State, state: SignalingState, suppressed: bool): State {
    if s.restartOffer then s.(signaling := HaveLocalOffer)
    else if suppressed || state != Derived(s.slots) then s
    else s.(signaling := state)
  }

  /** Native refreshes keep the kind of the description they replace. */
  function Next(s: State, step: Step): State {
    match step
    case SetLocal(d, v) => SetLocalDescription(s, d, v).0
    case SetRemote(d, v) => SetRemoteDescription(s, d, v).0
    case CreatedOffer(d, restart) =>
      if s.signaling == HaveRemoteOffer then s
      else s.(lastOffer := Some(d.(kind := Offer)), iceRestart := s.iceRestart || restart)
    case CreatedAnswer(d) =>
      if s.slots.remote.None? then s else s.(lastAnswer := Some(d.(kind := Answer)))
    case RestartIce =>
      if s.slots.local.None? && s.slots.remote.None? then s else s.(iceRestart := true)
    case RefreshLocal(d, syncs) =>
      if !SameKind(s.slots.local, d) then s
      else
        var t := s.(slots := RefreshedLocal(s.slots, d));
        if syncs then Synced(t) else t
    case RefreshRemote(d) =>
      if !SameKind(s.slots.remote, d) then s else s.(slots := RefreshedRemote(s.slots, d))
    case NativeSignaling(state, suppressed) => HearSignaling(s, state, suppressed)
  }

  ghost function Run(s: State, steps: seq<Step>): State {
    if steps == [] then s else Next(Run(s, steps[..|steps| - 1]), steps[|steps| - 1])
  }

  const INITIAL := State(Slots(None, None, None, None, None, None), Stable, false, false, false, None, None)

  // ---- the invariant --------------------------------------------------------

  /** Either nothing is negotiated, or one side's offer and the other side's answer are. */
  ghost predicate CurrentPair(s: Slots) {
    || (s.currentLocal.None? && s.currentRemote.None?)
    || (IsOffer(s.currentLocal) && IsAnswer(s.currentRemote))
    || (IsAnswer(s.currentLocal) && IsOffer(s.currentRemote))
  }

  ghost predicate SlotsInv(s: Slots) {
    && (s.pendingLocal.Some? ==> IsOffer(s.pendingLocal) && s.pendingRemote.None?)
    && (s.pendingRemote.Some? ==> IsOffer(s.pendingRemote))
    && s.local == Or(s.pendingLocal, s.currentLocal)
    && s.remote == Or(s.pendingRemote, s.currentRemote)
    && CurrentPair(s)
  }

  ghost predicate Inv(s: State) {
    && SlotsInv(s.slots)
    && s.signaling == Derived(s.slots)
    && (s.restartOffer ==> s.slots.pendingLocal.Some?)
    && (s.lastOffer.Some? ==> s.lastOffer.value.kind == Offer)
    && (s.lastAnswer.Some? ==> s.lastAnswer.value.kind == Answer)
  }

  /**
    The calls after which the flag of an ICE-restart offer outlives the offer: a local
    rollback, explicit or forced by a remote offer, while that offer is pending.
   */
  ghost predicate DropsRestartOffer(s: State, step: Step) {
    && s.restartOffer
    && (match step
        case SetLocal(d, v) => d.kind == Rollback && (NativeBacked(s.slots.local) ==> v.rollbackWorks)
        case SetRemote(d, v) => d.kind == Offer && (NativeBacked(s.slots.local) ==> v.rollbackWorks)
        case _ => false)
  }

  lemma SetLocalKeepsInv(s: State, d: Description, v: Env)
    requires Inv(s) && d.kind != Rollback
    ensures Inv(SetLocalDescription(s, d, v).0)
  {
    if d.kind == Offer {
      LocalOfferKeepsInv(s, d, v);
    } else {
      LocalAnswerKeepsInv(s, d, v);
    }
  }

  lemma LocalOfferKeepsInv(s: State, d: Description, v: Env)
    requires Inv(s) && d.kind == Offer
    ensures Inv(LocalOffer(s, d, v).0)
  {
    var e := Normalized(d, s.lastOffer);
    if s.signaling != HaveRemoteOffer {
      OfferToNativeKeepsInv(s, e, v);
    }
  }

  lemma OfferToNativeKeepsInv(s: State, d: Description, v: Env)
    requires Inv(s) && d.kind == Offer && s.signaling != HaveRemoteOffer
    ensures Inv(OfferToNative(s, d, v).0)
  {
  }

  lemma LocalAnswerKeepsInv(s: State, d: Description, v: Env)
    requires Inv(s) && d.kind == Answer
    ensures Inv(LocalAnswer(s, d, v).0)
  {
  }

  /** In have-local-offer the rollback a remote offer implies is the one a caller can ask for. */
  lemma RollbacksAgree(s: State, d: Description, v: Env)
    requires s.signaling == HaveLocalOffer && d.kind == Rollback
    ensures ImplicitRollback(s, v) == SetLocalDescription(s, d, v)
  {
  }

  lemma UndoKeepsInv(s: State, v: Env)
    requires Inv(s) && s.signaling == HaveLocalOffer
    ensures var u := UndoLocalOffer(s, v); Inv(u) <==> !s.restartOffer
  {
  }

  lemma RemoteOfferTakenKeepsInv(s: State, d: Description, v: Env)
    requires Inv(s) && d.kind == Offer && s.signaling != HaveLocalOffer
    ensures Inv(RemoteOfferTaken(s, d, v).0)
  {
  }

  lemma RemoteOfferTakenKeepsFlag(s: State, d: Description, v: Env)
    requires s.restartOffer && s.slots.pendingLocal.None?
    ensures var u := RemoteOfferTaken(s, d, v).0; u.restartOffer && u.slots.pendingLocal.None?
  {
  }

  lemma RemoteAnswerKeepsInv(s: State, d: Description, v: Env)
    requires Inv(s) && d.kind == Answer
    ensures Inv(RemoteAnswer(s, d, v).0)
  {
  }

  lemma RemoteOfferKeepsInv(s: State, d: Description, v: Env)
    requires Inv(s) && d.kind == Offer
    ensures Inv(RemoteOffer(s, d, v).0) <==> !DropsRestartOffer(s, SetRemote(d, v))
  {
    if s.signaling == HaveLocalOffer && (NativeBacked(s.slots.local) ==> v.rollbackWorks) {
      UndoKeepsInv(s, v);
      RollbacksAgree(s, d.(kind := Rollback), v);
      if s.restartOffer {
        RemoteOfferTakenKeepsFlag(UndoLocalOffer(s, v), d, v);
      } else {
        RemoteOfferTakenKeepsInv(UndoLocalOffer(s, v), d, v);
      }
    } else if s.signaling != HaveLocalOffer {
      RemoteOfferTakenKeepsInv(s, d, v);
    }
  }

  lemma RefreshKeepsInv(s: State, d: Description)
    requires Inv(s)
    ensures SameKind(s.slots.local, d) ==> SlotsInv(RefreshedLocal(s.slots, d))
    ensures SameKind(s.slots.local, d) ==> Derived(RefreshedLocal(s.slots, d)) == Derived(s.slots)
    ensures SameKind(s.slots.remote, d) ==> SlotsInv(RefreshedRemote(s.slots, d))
    ensures SameKind(s.slots.remote, d) ==> Derived(RefreshedRemote(s.slots, d)) == Derived(s.slots)
  {
  }

  /**
    The exact limit: a step keeps the signalling state equal to what the slots say, with at
    most one pending offer and a matching current pair, unless it drops a pending ICE-restart
    offer, and then it does not.
   */
  lemma StepKeepsInvExactly(s: State, step: Step)
    requires Inv(s)
    ensures Inv(Next(s, step)) <==> !DropsRestartOffer(s, step)
  {
    match step
    case SetLocal(d, v) =>
      if d.kind != Rollback {
        SetLocalKeepsInv(s, d, v);
      } else if s.signaling == HaveLocalOffer {
        UndoKeepsInv(s, v);
      }
    case SetRemote(d, v) =>
      match d.kind {
        case Offer => RemoteOfferKeepsInv(s, d, v);
        case Answer => RemoteAnswerKeepsInv(s, d, v);
        case Rollback =>
      }
    case RefreshLocal(d, _) => RefreshKeepsInv(s, d);
    case RefreshRemote(d) => RefreshKeepsInv(s, d);
    case _ =>
  }

  /** What a caller sees: the slots are in order and the reported state is what they say. */
  ghost predicate Consistent(s: State) { SlotsInv(s.slots) && s.signaling == Derived(s.slots) }

  lemma NativeReportKeepsInv(s: State, state: SignalingState, suppressed: bool)
    requires Inv(s)
    ensures Inv(HearSignaling(s, state, suppressed))
  {
  }

  lemma DroppedOfferLeavesFlag(s: State, step: Step)
    requires Inv(s) && DropsRestartOffer(s, step)
    ensures Next(s, step).restartOffer && Next(s, step).slots.pendingLocal.None?
  {
    if step.SetRemote? {
      RemoteOfferTakenKeepsFlag(ImplicitRollback(s, step.env).0, step.description, step.env);
    }
  }

  /**
    The exact limit, in what a caller sees: after a step the reported state agrees with the
    slots, at most one of them pending and the current ones a matching pair, and still does
    after whatever the native side reports next, unless the step drops a pending ICE-restart
    offer, and then it does not.
   */
  lemma StepStaysConsistentExactly(s: State, step: Step)
    requires Inv(s)
    ensures var t := Next(s, step);
            (Consistent(t) && forall state, suppressed :: Consistent(HearSignaling(t, state, suppressed)))
            <==> !DropsRestartOffer(s, step)
  {
    var t := Next(s, step);
    StepKeepsInvExactly(s, step);
    if DropsRestartOffer(s, step) {
      DroppedOfferLeavesFlag(s, step);
      assert !Consistent(HearSignaling(t, Stable, false));
    } else {
      forall state, suppressed ensures Consistent(HearSignaling(t, state, suppressed)) {
        NativeReportKeepsInv(t, state, suppressed);
      }
    }
  }

  lemma {:induction false} RunKeepsInv(steps: seq<Step>)
    requires forall i :: 0 <= i < |steps| ==> !DropsRestartOffer(Run(INITIAL, steps[..i]), steps[i])
    ensures Inv(Run(INITIAL, steps))
  {
    if steps != [] {
      var n := |steps| - 1;
      forall i | 0 <= i < n ensures !DropsRestartOffer(Run(INITIAL, steps[..n][..i]), steps[..n][i]) {
        assert steps[..n][..i] == steps[..i];
      }
      RunKeepsInv(steps[..n]);
      StepKeepsInvExactly(Run(INITIAL, steps[..n]), steps[n]);
    }
  }

  /** Once the flag has outlived its offer, the next native report makes the state wrong. */
  lemma StaleFlagMisreports(s: State, state: SignalingState, suppressed: bool)
    requires SlotsInv(s.slots) && s.restartOffer && s.slots.pendingLocal.None?
    ensures var u := Next(s, NativeSignaling(state, suppressed)); u.signaling != Derived(u.slots)
  {
  }

  // ---- against the JSEP state machine ---------------------------------------

  datatype Side = Local | Remote

  /**
    The transitions of section 3.2 of RFC 8829 without provisional answers, with the rollback
    that a remote offer implies while a local one is pending.
   */
  function Jsep(state: SignalingState, side: Side, kind: Kind): Option<SignalingState> {
    match kind
    case Offer =>
      if side == Remote then Some(HaveRemoteOffer)
      else if state == HaveRemoteOffer then None else Some(HaveLocalOffer)
    case Answer =>
      if state == (if side == Local then HaveRemoteOffer else HaveLocalOffer) then Some(Stable) else None
    case Rollback =>
      if state == (if side == Local then HaveLocalOffer else HaveRemoteOffer) then Some(Stable) else None
  }

  /**
    setLocalDescription refuses exactly what JSEP refuses, except an answer that counts as
    already applied; what it applies moves the state as JSEP says; anything else changes
    nothing that can be seen.
   */
  lemma SetLocalFollowsJsep(s: State, d: Description, v: Env)
    requires Inv(s) && !DropsRestartOffer(s, SetLocal(d, v))
    ensures var (u, result) := SetLocalDescription(s, d, v);
            var already := d.kind == Answer && AnswerAlreadyApplied(s, Normalized(d, s.lastAnswer), v);
            && (result == InvalidState <==> Jsep(s.signaling, Local, d.kind).None? && !already)
            && (result == Applied ==> Jsep(s.signaling, Local, d.kind) == Some(u.signaling))
            && (result == AlreadyApplied ==> already)
            && (result != Applied ==> u == s)
  {
    match d.kind
    case Offer => LocalOfferKeepsInv(s, d, v);
    case Answer => LocalAnswerKeepsInv(s, d, v);
    case Rollback =>
  }

  lemma SetRemoteFollowsJsep(s: State, d: Description, v: Env)
    requires Inv(s) && !DropsRestartOffer(s, SetRemote(d, v))
    ensures var (u, result) := SetRemoteDescription(s, d, v);
            && (result == InvalidState <==> Jsep(s.signaling, Remote, d.kind).None?)
            && (result == Applied ==> Jsep(s.signaling, Remote, d.kind) == Some(u.signaling))
            && result != AlreadyApplied
            && (result != Applied ==> u == s || (d.kind == Offer && u == UndoLocalOffer(s, v)))
  {
    match d.kind
    case Offer => RemoteOfferKeepsInv(s, d, v); RemoteOfferFollowsJsep(s, d, v);
    case Answer => RemoteAnswerKeepsInv(s, d, v);
    case Rollback =>
  }

  lemma RemoteOfferFollowsJsep(s: State, d: Description, v: Env)
    requires Inv(s) && d.kind == Offer && !DropsRestartOffer(s, SetRemote(d, v))
    ensures var (u, result) := RemoteOffer(s, d, v);
            && (result == Applied ==> u.signaling == HaveRemoteOffer && u.slots.remote == Some(d))
            && (result == Applied || result == Failed)
            && (result == Failed ==> u == s || u == UndoLocalOffer(s, v))
  {
    if s.signaling == HaveLocalOffer {
      RollbacksAgree(s, d.(kind := Rollback), v);
      UndoKeepsInv(s, v);
    }
  }

  /**
    The answer guard: in have-remote-offer, an answer the other checks let through is put into
    force exactly when the guard does not take it for one already in force.
   */
  lemma AnswerTakesEffectExactly(s: State, d: Description, v: Env)
    requires Inv(s) && s.signaling == HaveRemoteOffer && d.kind == Answer
    requires v.setWorks && MatchesLast(Normalized(d, s.lastAnswer), s.lastAnswer)
    ensures var u := SetLocalDescription(s, d, v).0;
            && (u.signaling == Stable <==> !AnswerAlreadyApplied(s, Normalized(d, s.lastAnswer), v))
            && (u.signaling == Stable ==> IsAnswer(u.slots.currentLocal)
                                          && u.slots.currentRemote == s.slots.pendingRemote)
            && (u.signaling != Stable ==> u == s)
  {
  }

  // ---- which descriptions take effect ----------------------------------------

  /** The slots once an offer and its answer, one on each side, are in force. */
  ghost predicate InForce(s: Slots, local: Option<Description>, remote: Option<Description>) {
    s == Slots(None, local, None, remote, local, remote)
  }

  /**
    An applied remote answer puts the pending local offer in force, and with it the answer: as
    the connection that made it reports it, or as given if none does or it carries no media.
   */
  lemma RemoteAnswerAcceptsTheOffer(s: State, d: Description, v: Env)
    requires Inv(s) && s.signaling == HaveLocalOffer && d.kind == Answer
    ensures var (u, result) := SetRemoteDescription(s, d, v);
            var asGiven := d.noMedia && !v.restartMark && !s.restartOffer && !DataOnlyRemoteAnswer(s, d);
            result == Applied ==>
              && s.slots.pendingLocal.Some? && s.slots.pendingLocal.value.kind == Offer
              && InForce(u.slots, s.slots.pendingLocal,
                         Some(if v.answered.Some? && !asGiven then v.answered.value.(kind := Answer) else d))
              && u.signaling == Stable && !u.restartOffer
  {
  }

  /** An applied local answer puts the pending remote offer in force, and with it the answer. */
  lemma LocalAnswerAcceptsTheOffer(s: State, d: Description, v: Env)
    requires Inv(s) && s.signaling == HaveRemoteOffer && d.kind == Answer
    ensures var (u, result) := SetLocalDescription(s, d, v);
            var e := if d.sdp == 0 && s.lastAnswer.Some? then s.lastAnswer.value else d;
            result == Applied ==>
              && s.slots.pendingRemote.Some? && s.slots.pendingRemote.value.kind == Offer
              && InForce(u.slots, Some(if e.noMedia || s.restartRemote || DataOnlyLocalAnswer(s, e) then e
                                       else v.description.(kind := Answer)), s.slots.pendingRemote)
              && u.signaling == Stable && s.lastAnswer.Some? && e.sdp == s.lastAnswer.value.sdp
  {
  }

  /** The pending local slot is all that an applied local offer changes, and this is what is in it. */
  lemma LocalOfferIsPending(s: State, d: Description, v: Env)
    requires Inv(s) && d.kind == Offer
    ensures var (u, result) := SetLocalDescription(s, d, v);
            var e := if d.sdp == 0 && s.lastOffer.Some? then s.lastOffer.value else d;
            var asGiven := e.noMedia || DataOnlyLocalOffer(s, e)
                           || ((s.iceRestart || v.restartMark) && !CanApplyNativeIceCredentials(s, v));
            var offer := Some(if asGiven then e else v.description.(kind := Offer));
            result == Applied ==>
              && u.slots == Slots(offer, s.slots.currentLocal, None, s.slots.currentRemote, offer, s.slots.currentRemote)
              && u.signaling == HaveLocalOffer && s.lastOffer.Some? && e.sdp == s.lastOffer.value.sdp
  {
  }

  /** Likewise for a remote offer, which drops a pending local one. */
  lemma RemoteOfferIsPending(s: State, d: Description, v: Env)
    requires Inv(s) && d.kind == Offer && !DropsRestartOffer(s, SetRemote(d, v))
    ensures var (u, result) := SetRemoteDescription(s, d, v);
            result == Applied ==>
              && u.slots == Slots(None, s.slots.currentLocal, Some(d), s.slots.currentRemote, s.slots.currentLocal, Some(d))
              && u.signaling == HaveRemoteOffer
  {
    RemoteOfferFollowsJsep(s, d, v);
  }

  // ---- rollback -------------------------------------------------------------

  /** Rolling back an offer restores every slot and the state from before it. */
  lemma RollbackUndoesOffer(s: State, d: Description, v: Env, w: Env, side: Side)
    requires Inv(s) && s.signaling == Stable && w.rollbackWorks
    requires d.kind == Offer
    ensures var back := d.(kind := Rollback);
            if side == Local then
              var (t, offered) := SetLocalDescription(s, d, v);
              offered == Applied ==>
                && SetLocalDescription(t, back, w).1 == Applied
                && SetLocalDescription(t, back, w).0.slots == s.slots
                && SetLocalDescription(t, back, w).0.signaling == Stable
            else
              var (t, offered) := SetRemoteDescription(s, d, v);
              offered == Applied ==>
                && SetRemoteDescription(t, back, w).1 == Applied
                && SetRemoteDescription(t, back, w).0.slots == s.slots
                && SetRemoteDescription(t, back, w).0.signaling == Stable
  {
    if side == Local {
      LocalOfferKeepsInv(s, d, v);
      LocalOfferFillsPending(s, d, v);
    } else {
      RemoteOfferTakenKeepsInv(s, d, v);
      RemoteOfferFillsPending(s, d, v);
    }
  }

  /** An applied local offer changes only the pending local slot. */
  lemma LocalOfferFillsPending(s: State, d: Description, v: Env)
    requires Inv(s) && s.signaling == Stable && d.kind == Offer
    ensures var (t, result) := LocalOffer(s, d, v);
            result == Applied ==>
              t.signaling == HaveLocalOffer && t.slots == SetPendingLocal(s.slots, t.slots.pendingLocal)
  {
  }

  lemma RemoteOfferFillsPending(s: State, d: Description, v: Env)
    requires Inv(s) && s.signaling == Stable && d.kind == Offer
    ensures var (t, result) := RemoteOfferTaken(s, d, v);
            result == Applied ==>
              t.signaling == HaveRemoteOffer && t.slots == SetPendingRemote(s.slots, Some(d))
  {
  }

  /** A remote offer in have-local-offer is a rollback followed by that offer. */
  lemma RemoteOfferImpliesRollback(s: State, d: Description, v: Env)
    requires Inv(s) && s.signaling == HaveLocalOffer && d.kind == Offer && v.rollbackWorks
    ensures var back := SetLocalDescription(s, d.(kind := Rollback), v);
            && back.1 == Applied
            && SetRemoteDescription(s, d, v) == SetRemoteDescription(back.0, d, v)
            && (SetRemoteDescription(s, d, v).1 == Applied ==>
                  var u := SetRemoteDescription(s, d, v).0;
                  u.slots.pendingLocal.None? && u.slots.pendingRemote == Some(d)
                  && u.slots.currentLocal == s.slots.currentLocal && u.slots.currentRemote == s.slots.currentRemote)
  {
    RollbacksAgree(s, d.(kind := Rollback), v);
  }

  // ---- where the signalling state goes wrong --------------------------------

  function Sdp(kind: Kind, sdp: nat): Description { Description(kind, sdp, false, true, None) }

  function Native(kind: Kind, sdp: nat, created: bool): Env {
    Env(true, true, true, Sdp(kind, sdp), false, true, false, created, None)
  }

  lemma Extend(steps: seq<Step>, step: Step) returns (more: seq<Step>, s: State)
    ensures more == steps + [step] && s == Next(Run(INITIAL, steps), step) == Run(INITIAL, more)
  {
    more, s := steps + [step], Next(Run(INITIAL, steps), step);
    assert more[..|steps|] == steps;
  }

  /**
    Glare during an ICE restart without native support: the remote offer rolls the local one
    back, the flag stays, and the state reports a local offer that is not there.
   */
  lemma GlareDuringRestartMisreports(s: State, d: Description, v: Env)
    requires Inv(s) && s.restartOffer && d.kind == Offer && !d.noMedia
    requires v.rollbackWorks && v.setWorks && v.validSyntax
    requires !RestartRemoteOffer(s, d, v)
    ensures var u := Next(s, SetRemote(d, v));
            u.signaling == HaveLocalOffer && u.slots.pendingLocal.None? && Derived(u.slots) == HaveRemoteOffer
  {
  }

  /** Such a state is within reach: one negotiation, then a restart. */
  lemma RestartOfferIsReachable() returns (steps: seq<Step>)
    ensures Inv(Run(INITIAL, steps)) && Run(INITIAL, steps).restartOffer
  {
    var first, second, answer := Sdp(Offer, 1), Sdp(Offer, 2), Sdp(Answer, 3);
    var s1, s2, s3, s4, s5;
    steps, s1 := Extend([], CreatedOffer(first, false));
    steps, s2 := Extend(steps, SetLocal(first, Native(Offer, 1, false)));
    steps, s3 := Extend(steps, SetRemote(answer, Native(Answer, 3, false)));
    assert s3.signaling == Stable && IsAnswer(s3.slots.currentRemote);
    steps, s4 := Extend(steps, CreatedOffer(second, true));
    steps, s5 := Extend(steps, SetLocal(second, Native(Offer, 2, false)));
    assert s5.slots.currentLocal == s3.slots.currentLocal && s5.slots.currentRemote == s3.slots.currentRemote;
  }

  /** A second remote offer, answered with a fresh answer of this connection, stays unanswered. */
  lemma RenegotiatedAnswerIsDropped(s: State, sdp: nat)
    requires Inv(s) && s.signaling == HaveRemoteOffer && IsAnswer(s.slots.currentLocal) && sdp != 0
    ensures var answer := Sdp(Answer, sdp);
            var t := Next(s, CreatedAnswer(answer));
            && SetLocalDescription(t, answer, Native(Answer, sdp, true)) == (t, AlreadyApplied)
            && t.signaling == HaveRemoteOffer
  {
  }

  /** That, too, is within reach: answer one offer, then be offered another. */
  lemma RenegotiationIsReachable() returns (steps: seq<Step>)
    ensures var s := Run(INITIAL, steps);
            Inv(s) && s.signaling == HaveRemoteOffer && IsAnswer(s.slots.currentLocal)
  {
    var first, second, answer := Sdp(Offer, 1), Sdp(Offer, 2), Sdp(Answer, 3);
    var s1, s2, s3, s4;
    steps, s1 := Extend([], SetRemote(first, Native(Offer, 1, false)));
    steps, s2 := Extend(steps, CreatedAnswer(answer));
    steps, s3 := Extend(steps, SetLocal(answer, Native(Answer, 3, true)));
    assert s3.signaling == Stable && IsAnswer(s3.slots.currentLocal);
    steps, s4 := Extend(steps, SetRemote(second, Native(Offer, 2, false)));
  }

  // ---- the class ------------------------------------------------------------

  /** The fields of the peer connection that the set-description calls change. */
  class Connection {
    var pendingLocal: Option<Description>
    var currentLocal: Option<Description>
    var pendingRemote: Option<Description>
    var currentRemote: Option<Description>
    var local: Option<Description>
    var remote: Option<Description>
    var signaling: SignalingState
    var restartOffer: bool
    var restartRemote: bool
    var iceRestart: bool
    var lastOffer: Option<Description>
    var lastAnswer: Option<Description>

    function TheSlots(): Slots
      reads this`pendingLocal, this`currentLocal, this`pendingRemote, this`currentRemote, this`local, this`remote
    {
      Slots(pendingLocal, currentLocal, pendingRemote, currentRemote, local, remote)
    }

    /** The fields as a value; the guards ask it. */
    function Abs(): State
      reads this
    {
      State(TheSlots(), signaling, restartOffer, restartRemote, iceRestart, lastOffer, lastAnswer)
    }

    constructor ()
      ensures Abs() == INITIAL
    {
      pendingLocal, currentLocal, pendingRemote, currentRemote, local, remote := None, None, None, None, None, None;
      signaling, restartOffer, restartRemote, iceRestart, lastOffer, lastAnswer := Stable, false, false, false, None, None;
    }

    method PutPendingLocal(d: Option<Description>)
      modifies this`pendingLocal, this`local
      ensures TheSlots() == SetPendingLocal(old(TheSlots()), d)
    {
      pendingLocal := d;
      local := if d.Some? then d else currentLocal;
    }

    method PutPendingRemote(d: Option<Description>)
      modifies this`pendingRemote, this`remote
      ensures TheSlots() == SetPendingRemote(old(TheSlots()), d)
    {
      pendingRemote := d;
      remote := if d.Some? then d else currentRemote;
    }

    method CommitLocalSlot(d: Option<Description>)
      modifies this`pendingLocal, this`currentLocal, this`local
      ensures TheSlots() == CommitLocal(old(TheSlots()), d)
    {
      if d.Some? {
        currentLocal := d;
      }
      pendingLocal := None;
      local := currentLocal;
    }

    method CommitRemoteSlot(d: Option<Description>)
      modifies this`pendingRemote, this`currentRemote, this`remote
      ensures TheSlots() == CommitRemote(old(TheSlots()), d)
    {
      if d.Some? {
        currentRemote := d;
      }
      pendingRemote := None;
      remote := currentRemote;
    }

    method Sync()
      modifies this`signaling
      ensures Abs() == Synced(old(Abs()))
    {
      if restartOffer {
        signaling := HaveLocalOffer;
        return;
      }
      signaling := Derived(TheSlots());
    }

    method SyncFromNative(v: Env)
      modifies this`signaling
      ensures Abs() == SyncedFromNative(old(Abs()), v)
    {
      if v.present {
        Sync();
      }
    }

    method UndoOffer(v: Env)
      modifies this`pendingLocal, this`local, this`signaling
      ensures Abs() == UndoLocalOffer(old(Abs()), v)
    {
      pendingLocal := None;
      local := currentLocal;
      SyncFromNative(v);
      signaling := Stable;
    }

    /** The rollback a remote offer runs before anything else. */
    method RollBackForOffer(v: Env) returns (result: Result)
      modifies this`pendingLocal, this`local, this`signaling
      ensures (Abs(), result) == ImplicitRollback(old(Abs()), v)
    {
      if local.Some? && !local.value.noMedia && !v.rollbackWorks {
        return Failed;
      }
      pendingLocal := None;
      local := currentLocal;
      if v.present {
        Sync();
      }
      signaling := Stable;
      return Applied;
    }

    method CommitLocalAnswer(answer: Option<Description>)
      modifies this`pendingLocal, this`currentLocal, this`local, this`pendingRemote, this`currentRemote, this`remote
      ensures TheSlots() == CommitAnswer(old(TheSlots()), answer)
    {
      CommitRemoteSlot(if pendingRemote.Some? then pendingRemote else remote);
      CommitLocalSlot(answer);
    }

    method CommitRemoteAnswer(answer: Option<Description>)
      modifies this`pendingLocal, this`currentLocal, this`local, this`pendingRemote, this`currentRemote, this`remote
      ensures TheSlots() == CommitOffer(old(TheSlots()), answer)
    {
      CommitLocalSlot(if pendingLocal.Some? then pendingLocal else local);
      CommitRemoteSlot(answer);
    }

    method ApplyLocalOffer(given: Description, v: Env) returns (result: Result)
      modifies this
      ensures (Abs(), result) == LocalOffer(old(Abs()), given, v)
    {
      if signaling == HaveRemoteOffer {
        return InvalidState;
      }
      var d := if given.sdp == 0 && lastOffer.Some? then lastOffer.value else given;
      if lastOffer.None? || d.sdp != lastOffer.value.sdp {
        return InvalidModification;
      }
      if d.noMedia {
        PutPendingLocal(Some(d));
        signaling := HaveLocalOffer;
        return Applied;
      }
      if DataOnlyLocalOffer(Abs(), d) {
        PutPendingLocal(Some(d));
        Sync();
        return Applied;
      }
      if (iceRestart || v.restartMark) && !CanApplyNativeIceCredentials(Abs(), v) {
        restartOffer := true;
        PutPendingLocal(Some(d));
      } else {
        if !v.setWorks {
          return Failed;
        }
        PutPendingLocal(Some(v.description.(kind := Offer)));
      }
      Sync();
      iceRestart := false;
      return Applied;
    }

    method ApplyLocalAnswer(given: Description, v: Env) returns (result: Result)
      modifies this
      ensures (Abs(), result) == LocalAnswer(old(Abs()), given, v)
    {
      var d := if given.sdp == 0 && lastAnswer.Some? then lastAnswer.value else given;
      var already := AnswerAlreadyApplied(Abs(), d, v);
      if !already && signaling != HaveRemoteOffer {
        return InvalidState;
      }
      if lastAnswer.None? || d.sdp != lastAnswer.value.sdp {
        return InvalidModification;
      }
      if already {
        SyncFromNative(v);
        return AlreadyApplied;
      }
      if d.noMedia {
        CommitLocalAnswer(Some(d));
        signaling := Stable;
        return Applied;
      }
      if restartRemote {
        CommitLocalAnswer(Some(d));
        restartRemote := false;
        signaling := Stable;
        return Applied;
      }
      var answer := Some(d);
      if !DataOnlyLocalAnswer(Abs(), d) {
        if IsAnswer(local) && pendingRemote.None? {
          SyncFromNative(v);
          answer := local;
        } else if !v.setWorks {
          return Failed;
        } else {
          answer := Some(v.description.(kind := Answer));
        }
      }
      CommitLocalAnswer(answer);
      Sync();
      return Applied;
    }

    method ApplyRemoteAnswer(d: Description, v: Env) returns (result: Result)
      modifies this
      ensures (Abs(), result) == RemoteAnswer(old(Abs()), d, v)
      ensures old(Inv(Abs()) && signaling == HaveLocalOffer) && d.kind == Answer && result == Applied ==>
                InForce(TheSlots(), old(pendingLocal), currentRemote)
    {
      if Inv(Abs()) && signaling == HaveLocalOffer && d.kind == Answer {
        RemoteAnswerAcceptsTheOffer(Abs(), d, v);
      }
      if signaling != HaveLocalOffer && !restartOffer {
        return InvalidState;
      }
      if !v.validSyntax {
        return Failed;
      }
      var answer := if v.answered.Some? then v.answered.value.(kind := Answer) else d;
      if v.restartMark || restartOffer {
        CommitRemoteAnswer(Some(answer));
        signaling := Stable;
        restartOffer := false;
        iceRestart := false;
        return Applied;
      }
      if !DataOnlyRemoteAnswer(Abs(), d) {
        if d.noMedia {
          CommitRemoteAnswer(Some(d));
          signaling := Stable;
          return Applied;
        }
        if !v.setWorks {
          return Failed;
        }
      }
      CommitRemoteAnswer(Some(answer));
      Sync();
      return Applied;
    }

    method ApplyRemoteOffer(d: Description, v: Env) returns (result: Result)
      modifies this
      ensures (Abs(), result) == RemoteOffer(old(Abs()), d, v)
    {
      if signaling == HaveLocalOffer {
        result := RollBackForOffer(v);
        if result != Applied {
          return;
        }
      }
      if !v.validSyntax {
        return Failed;
      }
      if RestartRemoteOffer(Abs(), d, v) {
        PutPendingRemote(Some(d));
        signaling := HaveRemoteOffer;
        restartRemote := true;
        return Applied;
      }
      if DataOnlyRemoteOffer(Abs(), d) {
        PutPendingRemote(Some(d));
        Sync();
        return Applied;
      }
      if !d.noMedia && signaling == HaveRemoteOffer {
        PutPendingRemote(Some(d));
        return Applied;
      }
      if !d.noMedia && !v.setWorks {
        return Failed;
      }
      pendingLocal := None;
      local := currentLocal;
      PutPendingRemote(Some(d));
      if d.noMedia {
        signaling := HaveRemoteOffer;
      } else {
        Sync();
      }
      return Applied;
    }

    method ApplyRollback(side: Side, v: Env) returns (result: Result)
      modifies this
      ensures (Abs(), result) == if side == Local then LocalRollback(old(Abs()), v) else RemoteRollback(old(Abs()), v)
    {
      if signaling != (if side == Local then HaveLocalOffer else HaveRemoteOffer) {
        return InvalidState;
      }
      if NativeBacked(if side == Local then local else remote) && !v.rollbackWorks {
        return Failed;
      }
      if side == Local {
        UndoOffer(v);
      } else {
        pendingRemote := None;
        remote := currentRemote;
        SyncFromNative(v);
        signaling := Stable;
      }
      return Applied;
    }
  }
}
