/**
  How every set-description call ends, and which of them get by without the native side: only
  those that carry no media, restart ICE without native support, or renew a negotiated data
  session under the ICE credentials it has.
 */
module SignalingResults {
  import opened Wrappers
  import opened Signaling

  ghost predicate WithData(d: Option<Description>, kind: Kind) {
    d.Some? && d.value.kind == kind && d.value.data
  }

  /** No sign of new ICE credentials. */
  ghost predicate SameIce(d: Description, current: Option<Description>) {
    current.Some? && (d.credentials.None? || current.value.credentials.None? || d.credentials == current.value.credentials)
  }

  /** An offer of side a that was answered by side b, both with data. */
  ghost predicate DataSession(a: Option<Description>, b: Option<Description>) {
    WithData(a, Offer) && WithData(b, Answer)
  }

  // ---- local descriptions ---------------------------------------------------

  ghost predicate LocalOfferSkipsNative(s: State, e: Description, v: Env) {
    || e.noMedia
    || (s.signaling == Stable && !s.iceRestart && DataSession(s.slots.currentLocal, s.slots.currentRemote)
        && e.data && SameIce(e, s.slots.currentLocal))
    || RestartsInJs(s, v)
  }

  /** An ICE restart asked for when the native side can no longer take new credentials. */
  ghost predicate RestartsInJs(s: State, v: Env) {
    && (s.iceRestart || v.restartMark)
    && (!v.gatheringNew || s.slots.local.Some? || s.slots.currentLocal.Some? || s.slots.pendingLocal.Some?)
  }

  lemma LocalOfferEndsExactly(s: State, d: Description, v: Env)
    requires Inv(s) && d.kind == Offer
    ensures var e := if d.sdp == 0 && s.lastOffer.Some? then s.lastOffer.value else d;
            var (u, result) := SetLocalDescription(s, d, v);
            && result == (if s.signaling == HaveRemoteOffer then InvalidState
                          else if s.lastOffer.None? || s.lastOffer.value.sdp != e.sdp then InvalidModification
                          else if LocalOfferSkipsNative(s, e, v) || v.setWorks then Applied
                          else Failed)
            && (if result == Applied then u.iceRestart == (s.iceRestart && e.noMedia) else u == s)
  {
  }

  ghost predicate LocalAnswerSkipsNative(s: State, e: Description) {
    || e.noMedia || s.restartRemote
    || (WithData(s.slots.pendingRemote, Offer) && DataSession(s.slots.currentRemote, s.slots.currentLocal)
        && e.data && SameIce(s.slots.pendingRemote.value, s.slots.currentRemote) && SameIce(e, s.slots.currentLocal))
  }

  lemma LocalAnswerEndsExactly(s: State, d: Description, v: Env)
    requires Inv(s) && d.kind == Answer
    ensures var e := if d.sdp == 0 && s.lastAnswer.Some? then s.lastAnswer.value else d;
            var (u, result) := SetLocalDescription(s, d, v);
            var already := s.slots.local.Some? && s.slots.local.value.kind == Answer
                           && (s.slots.local.value.sdp == e.sdp || v.createdHere);
            && result == (if !already && s.signaling != HaveRemoteOffer then InvalidState
                          else if s.lastAnswer.None? || s.lastAnswer.value.sdp != e.sdp then InvalidModification
                          else if already then AlreadyApplied
                          else if LocalAnswerSkipsNative(s, e) || v.setWorks then Applied
                          else Failed)
            && (if result == Applied then u.restartRemote == (s.restartRemote && e.noMedia) else u == s)
  {
  }

  // ---- remote descriptions --------------------------------------------------

  /** The credentials of the peer have changed, or it says so. */
  ghost predicate RestartsRemotely(s: State, d: Description, v: Env) {
    || v.restartMark
    || (d.data && s.slots.currentRemote.Some? && s.slots.currentRemote.value.data && !SameIce(d, s.slots.currentRemote))
  }

  ghost predicate RemoteOfferSkipsNative(s: State, d: Description, v: Env) {
    || d.noMedia || s.signaling == HaveRemoteOffer || RestartsRemotely(s, d, v)
    || (DataSession(s.slots.currentRemote, s.slots.currentLocal) && d.data && SameIce(d, s.slots.currentRemote))
  }

  ghost predicate RollbackRefused(d: Option<Description>, v: Env) {
    d.Some? && !d.value.noMedia && !v.rollbackWorks
  }

  lemma TakenOfferEndsExactly(s: State, d: Description, v: Env)
    requires s.signaling == Stable || s.signaling == HaveRemoteOffer
    ensures var (u, result) := RemoteOfferTaken(s, d, v);
            && result == (if v.validSyntax && (RemoteOfferSkipsNative(s, d, v) || v.setWorks) then Applied else Failed)
            && (if result == Applied then u.restartRemote == (s.restartRemote || RestartsRemotely(s, d, v)) else u == s)
  {
    assert s.slots.currentRemote.Some? ==>
        (SameIce(d, s.slots.currentRemote) <==> !DifferentCredentials(d, s.slots.currentRemote.value));
  }

  lemma RemoteOfferEndsExactly(s: State, d: Description, v: Env)
    requires Inv(s) && d.kind == Offer
    ensures var (u, result) := SetRemoteDescription(s, d, v);
            && result == (if s.signaling == HaveLocalOffer && RollbackRefused(s.slots.local, v) then Failed
                          else if v.validSyntax && (RemoteOfferSkipsNative(s, d, v) || v.setWorks) then Applied
                          else Failed)
            && (result == Applied ==> u.restartRemote == (s.restartRemote || RestartsRemotely(s, d, v)))
  {
    if s.signaling == HaveLocalOffer {
      var (t, undone) := ImplicitRollback(s, v);
      if undone == Applied {
        TakenOfferEndsExactly(t, d, v);
      }
    } else {
      TakenOfferEndsExactly(s, d, v);
    }
  }

  ghost predicate RemoteAnswerSkipsNative(s: State, d: Description, v: Env) {
    || d.noMedia || v.restartMark || s.restartOffer
    || (WithData(s.slots.pendingLocal, Offer) && DataSession(s.slots.currentLocal, s.slots.currentRemote)
        && d.data && SameIce(s.slots.pendingLocal.value, s.slots.currentLocal) && SameIce(d, s.slots.currentRemote))
  }

  lemma RemoteAnswerEndsExactly(s: State, d: Description, v: Env)
    requires Inv(s) && d.kind == Answer
    ensures var (u, result) := SetRemoteDescription(s, d, v);
            && result == (if s.signaling != HaveLocalOffer then InvalidState
                          else if v.validSyntax && (RemoteAnswerSkipsNative(s, d, v) || v.setWorks) then Applied
                          else Failed)
            && (if result == Applied
                then !u.restartOffer && u.iceRestart == (s.iceRestart && !v.restartMark && !s.restartOffer)
                else u == s)
  {
  }

  // ---- rollbacks and creation -----------------------------------------------

  lemma RollbackEndsExactly(s: State, d: Description, v: Env)
    requires d.kind == Rollback
    ensures SetLocalDescription(s, d, v).1 ==
              if s.signaling != HaveLocalOffer then InvalidState
              else if RollbackRefused(s.slots.local, v) then Failed else Applied
    ensures SetRemoteDescription(s, d, v).1 ==
              if s.signaling != HaveRemoteOffer then InvalidState
              else if RollbackRefused(s.slots.remote, v) then Failed else Applied
    ensures SetLocalDescription(s, d, v).1 != Applied ==> SetLocalDescription(s, d, v).0 == s
    ensures SetRemoteDescription(s, d, v).1 != Applied ==> SetRemoteDescription(s, d, v).0 == s
  {
  }

  /** An offer is created in every state but have-remote-offer, an answer once there is a remote description. */
  lemma CreationRecordsExactly(s: State, d: Description, restart: bool)
    ensures Next(s, CreatedOffer(d, restart)) ==
              if s.signaling == HaveRemoteOffer then s
              else s.(lastOffer := Some(d.(kind := Offer)), iceRestart := s.iceRestart || restart)
    ensures Next(s, CreatedAnswer(d)) == if s.slots.remote.Some? then s.(lastAnswer := Some(d.(kind := Answer))) else s
    ensures Next(s, RestartIce) == if s.slots.local == s.slots.remote == None then s else s.(iceRestart := true)
  {
  }
}
