/**
  Stream ids of data channels: the index of used ids, refreshed only when a query needs it,
  and the assignment of free ids once the DTLS role is known.
 */
module DataChannelIds {
  import opened Wrappers

  const LAST_ID: nat := 65534

  /** A channel as the rest of the system sees it; id is the native one, else the assigned one. */
  datatype View = View(negotiated: bool, id: Option<nat>, closed: bool)

  predicate Uses(v: View, id: nat) { !v.closed && v.id == Some(id) }

  /** Some live channel has this id. */
  predicate InUse(views: seq<View>, id: nat) {
    exists i :: 0 <= i < |views| && Uses(views[i], id)
  }

  predicate OnTheWay(from: nat, k: nat) { from <= k && (k - from) % 2 == 0 }

  /** The least free id from this one on, in steps of two. */
  function FreeFrom(views: seq<View>, from: nat): (r: Option<nat>)
    ensures r.Some? ==> OnTheWay(from, r.value) && r.value <= LAST_ID && !InUse(views, r.value)
    ensures forall k: nat :: OnTheWay(from, k) && k < (if r.Some? then r.value else LAST_ID + 1) ==> InUse(views, k)
    decreases LAST_ID + 2 - from
  {
    if from > LAST_ID then None
    else if !InUse(views, from) then Some(from)
    else
      var r := FreeFrom(views, from + 2);
      assert forall k: nat :: OnTheWay(from, k) && k != from ==> OnTheWay(from + 2, k);
      r
  }

  // ---- assignment from the DTLS role ----------------------------------------

  predicate NeedsId(v: View) { !v.closed && !v.negotiated && v.id.None? }

  /** The i-th channel gets the least free id, or fails when there is none. */
  function AssignOne(views: seq<View>, i: nat, parity: nat): (r: seq<View>)
    requires i < |views|
    ensures |r| == |views|
  {
    if !NeedsId(views[i]) then views
    else
      var id := FreeFrom(views, parity);
      if id.None? then views[i := views[i].(closed := true)] else views[i := views[i].(id := id)]
  }

  function AssignFirst(views: seq<View>, n: nat, parity: nat): (r: seq<View>)
    requires n <= |views|
    ensures |r| == |views|
  {
    if n == 0 then views else AssignOne(AssignFirst(views, n - 1, parity), n - 1, parity)
  }

  ghost predicate Distinct(views: seq<View>) {
    forall i, j, id :: 0 <= i < |views| && 0 <= j < |views| && Uses(views[i], id) && Uses(views[j], id) ==> i == j
  }

  lemma NewIdIsNew(views: seq<View>, i: nat, parity: nat, a: nat, b: nat, id: nat)
    requires i < |views| && Distinct(views) && a < |views| && b < |views|
    requires var r := AssignOne(views, i, parity); Uses(r[a], id) && Uses(r[b], id)
    ensures a == b
  {
    var r := AssignOne(views, i, parity);
    if r[a] == views[a] && r[b] == views[b] {
      assert Uses(views[a], id) && Uses(views[b], id);
    } else {
      assert r[i].id == Some(id) && !InUse(views, id);
      assert forall k :: 0 <= k < |views| ==> !Uses(views[k], id);
    }
  }

  lemma AssignOneKeeps(views: seq<View>, i: nat, parity: nat)
    requires i < |views| && Distinct(views)
    ensures var r := AssignOne(views, i, parity);
            && Distinct(r)
            && (forall k: nat :: InUse(views, k) ==> InUse(r, k))
  {
    var r := AssignOne(views, i, parity);
    forall k: nat | InUse(views, k) ensures InUse(r, k) {
      var j :| 0 <= j < |views| && Uses(views[j], k);
      assert Uses(r[j], k);
    }
    forall a, b, id | 0 <= a < |r| && 0 <= b < |r| && Uses(r[a], id) && Uses(r[b], id) ensures a == b {
      NewIdIsNew(views, i, parity, a, b, id);
    }
  }

  /** What assignment promises about the first n channels. */
  ghost predicate Served(before: seq<View>, after: seq<View>, i: nat, parity: nat)
    requires i < |before| == |after|
  {
    if !NeedsId(before[i]) then after[i] == before[i]
    else if after[i].closed then
      after[i] == before[i].(closed := true) && forall k: nat :: OnTheWay(parity, k) && k <= LAST_ID ==> InUse(after, k)
    else
      && after[i].id.Some? && after[i] == before[i].(id := after[i].id)
      && OnTheWay(parity, after[i].id.value) && after[i].id.value <= LAST_ID
      && forall k: nat :: OnTheWay(parity, k) && k < after[i].id.value ==> InUse(after, k)
  }

  /**
    Every channel that needs an id gets one of the right parity with no free one below it,
    or fails and then none up to the last id is free; ids of live channels stay distinct.
   */
  lemma {:induction false} AssignmentIsLeastFree(views: seq<View>, n: nat, parity: nat)
    requires n <= |views| && Distinct(views)
    ensures var r := AssignFirst(views, n, parity);
            && Distinct(r)
            && (forall i :: 0 <= i < n ==> Served(views, r, i, parity))
            && (forall i :: n <= i < |views| ==> r[i] == views[i])
  {
    if n > 0 {
      AssignmentIsLeastFree(views, n - 1, parity);
      var p, r := AssignFirst(views, n - 1, parity), AssignFirst(views, n, parity);
      AssignOneKeeps(p, n - 1, parity);
      forall i | 0 <= i < n ensures Served(views, r, i, parity) {
        if i < n - 1 {
          assert Served(views, p, i, parity) && r[i] == p[i];
        }
      }
    }
  }

  // ---- the registry ---------------------------------------------------------

  datatype Channel = Channel(
    negotiated: bool, nativeId: Option<nat>, assignedId: Option<nat>, registered: Option<nat>, closed: bool)

  function EffectiveId(c: Channel): Option<nat> { if c.nativeId.Some? then c.nativeId else c.assignedId }

  function ViewOf(c: Channel): View { View(c.negotiated, EffectiveId(c), c.closed) }

  function Views(channels: seq<Channel>): (r: seq<View>)
    ensures |r| == |channels|
  {
    seq(|channels|, i requires 0 <= i < |channels| => ViewOf(channels[i]))
  }

  datatype DtlsSetup = Passive | Active | OtherSetup

  /** Section 6 of RFC 8832: the side with the DTLS client role uses even ids. */
  function ParityFromDtlsRole(remoteIsAnswer: bool, localIsOffer: bool, setup: DtlsSetup): Option<nat> {
    if !remoteIsAnswer || !localIsOffer then None
    else
      match setup
      case Passive => Some(0)
      case Active => Some(1)
      case OtherSetup => None
  }

  function AssignedFromRole(views: seq<View>, remoteIsAnswer: bool, localIsOffer: bool, setup: DtlsSetup): seq<View> {
    var parity := ParityFromDtlsRole(remoteIsAnswer, localIsOffer, setup);
    if parity.None? then views else AssignFirst(views, |views|, parity.value)
  }

  /** A waiting channel has the least id of this remainder that is free, or has failed for want of one. */
  ghost predicate HasLeastFree(before: seq<View>, after: seq<View>, i: nat, remainder: nat)
    requires i < |before| == |after|
  {
    if before[i].closed || before[i].negotiated || before[i].id.Some? then after[i] == before[i]
    else if after[i].closed then
      after[i] == before[i].(closed := true) && forall k: nat :: k <= 65534 && k % 2 == remainder ==> InUse(after, k)
    else
      && after[i].id.Some? && after[i] == before[i].(id := after[i].id)
      && after[i].id.value <= 65534 && after[i].id.value % 2 == remainder
      && forall k: nat :: k < after[i].id.value && k % 2 == remainder ==> InUse(after, k)
  }

  ghost predicate HaveLeastFree(before: seq<View>, after: seq<View>, remainder: nat) {
    && |before| == |after| && Distinct(after)
    && forall i :: 0 <= i < |before| ==> HasLeastFree(before, after, i, remainder)
  }

  lemma ServedHasLeastFree(before: seq<View>, after: seq<View>, i: nat, remainder: nat)
    requires remainder < 2 && i < |before| == |after| && Served(before, after, i, remainder)
    ensures HasLeastFree(before, after, i, remainder)
  {
    assert forall k: nat :: k % 2 == remainder ==> OnTheWay(remainder, k);
  }

  lemma AllServed(views: seq<View>, remainder: nat)
    requires Distinct(views) && remainder < 2
    ensures HaveLeastFree(views, AssignFirst(views, |views|, remainder), remainder)
  {
    var after := AssignFirst(views, |views|, remainder);
    AssignmentIsLeastFree(views, |views|, remainder);
    forall i | 0 <= i < |views| ensures HasLeastFree(views, after, i, remainder) {
      ServedHasLeastFree(views, after, i, remainder);
    }
  }

  /**
    The offerer whose peer answers passive is the DTLS client: its waiting channels get even
    ids. Against an active peer they get odd ones; otherwise nothing is assigned.
   */
  lemma RoleDecidesIds(views: seq<View>, remoteIsAnswer: bool, localIsOffer: bool, setup: DtlsSetup)
    requires Distinct(views)
    ensures var after := AssignedFromRole(views, remoteIsAnswer, localIsOffer, setup);
            if remoteIsAnswer && localIsOffer && setup == Passive then HaveLeastFree(views, after, 0)
            else if remoteIsAnswer && localIsOffer && setup == Active then HaveLeastFree(views, after, 1)
            else after == views
  {
    AllServed(views, 0);
    AllServed(views, 1);
  }

  /** Closed channels stay in the list, marked; usedIds maps an id to a position in it. */
  datatype Index = Index(channels: seq<Channel>, usedIds: map<nat, nat>, refreshNeeded: bool)

  ghost predicate ChannelInv(x: Index, i: nat)
    requires i < |x.channels|
  {
    var c := x.channels[i];
    && (c.registered.Some? ==>
          !c.closed && c.registered == EffectiveId(c) && c.registered.value in x.usedIds
          && x.usedIds[c.registered.value] == i)
    && (!c.closed && c.registered.None? ==> x.refreshNeeded)
    && (c.nativeId.Some? && c.assignedId.Some? ==> c.nativeId == c.assignedId)
  }

  ghost predicate EntriesInv(x: Index) {
    && (forall id :: id in x.usedIds ==>
          x.usedIds[id] < |x.channels| && x.channels[x.usedIds[id]].registered == Some(id))
    && (forall i :: 0 <= i < |x.channels| ==> ChannelInv(x, i))
  }

  /** The index is right in what it holds, and misses a live channel only when marked for refresh. */
  ghost predicate Inv(x: Index) { EntriesInv(x) && Distinct(Views(x.channels)) }

  function Unregister(x: Index, i: nat): (r: Index)
    requires i < |x.channels|
    ensures |r.channels| == |x.channels|
  {
    var c := x.channels[i];
    if c.registered.None? then x
    else
      Index(x.channels[i := c.(registered := None)],
            if c.registered.value in x.usedIds && x.usedIds[c.registered.value] == i
            then x.usedIds - {c.registered.value} else x.usedIds,
            x.refreshNeeded)
  }

  /** Another live channel holds the id. */
  predicate Taken(x: Index, id: nat, i: nat) {
    id in x.usedIds && x.usedIds[id] != i && x.usedIds[id] < |x.channels| && !x.channels[x.usedIds[id]].closed
  }

  /** _registerDataChannelId for the effective id. */
  function Register(x: Index, i: nat): (r: Index)
    requires i < |x.channels|
    ensures |r.channels| == |x.channels| && r.refreshNeeded == x.refreshNeeded
  {
    var id := EffectiveId(x.channels[i]);
    if id.None? || x.channels[i].registered == id then x
    else
      var u := Unregister(x, i);
      if Taken(u, id.value, i) then u
      else u.(channels := u.channels[i := u.channels[i].(registered := id)], usedIds := u.usedIds[id.value := i])
  }

  /** Everything of the invariant but the refresh flag. */
  ghost predicate IndexInv(x: Index) {
    Inv(x.(refreshNeeded := true))
  }

  lemma UsedIdsAreUsed(x: Index)
    requires IndexInv(x)
    ensures forall id :: id in x.usedIds ==> Uses(Views(x.channels)[x.usedIds[id]], id)
  {
    forall id | id in x.usedIds ensures Uses(Views(x.channels)[x.usedIds[id]], id) {
      assert ChannelInv(x.(refreshNeeded := true), x.usedIds[id]);
    }
  }

  lemma RegisterKeeps(x: Index, i: nat)
    requires IndexInv(x) && i < |x.channels| && !x.channels[i].closed
    ensures var r := Register(x, i);
            && IndexInv(r) && Views(r.channels) == Views(x.channels)
            && r.channels[i].registered == EffectiveId(x.channels[i])
            && (forall j :: 0 <= j < |x.channels| && j != i ==> r.channels[j] == x.channels[j])
  {
    var r, id := Register(x, i), EffectiveId(x.channels[i]);
    assert ChannelInv(x.(refreshNeeded := true), i);
    if id.Some? && x.channels[i].registered != id {
      UsedIdsAreUsed(x);
      assert Uses(Views(x.channels)[i], id.value);
      assert Views(r.channels) == Views(x.channels);
      forall j | 0 <= j < |r.channels| ensures ChannelInv(r.(refreshNeeded := true), j) {
        assert ChannelInv(x.(refreshNeeded := true), j);
      }
    }
  }

  // ---- queries --------------------------------------------------------------

  /** What the index says, right now. */
  predicate Says(x: Index, id: nat) {
    id in x.usedIds && x.usedIds[id] < |x.channels| && !x.channels[x.usedIds[id]].closed
  }

  /** The refresh: every live channel among the first n registers its effective id. */
  function Scan(x: Index, n: nat): (r: Index)
    requires n <= |x.channels|
    ensures |r.channels| == |x.channels|
  {
    if n == 0 then x else ScanOne(Scan(x, n - 1), n - 1)
  }

  function ScanOne(x: Index, i: nat): (r: Index)
    requires i < |x.channels|
    ensures |r.channels| == |x.channels|
  {
    if x.channels[i].closed then x else Register(x, i)
  }

  /** Some live channel among the first n has no id yet. */
  predicate Unidentified(channels: seq<Channel>, n: nat)
    requires n <= |channels|
  {
    exists i :: 0 <= i < n && !channels[i].closed && EffectiveId(channels[i]).None?
  }

  /** _isDataChannelIdInUse: the index is refreshed only if it has no answer and may be out of date. */
  function AfterQuery(x: Index, id: nat): Index {
    if Says(x, id) || !x.refreshNeeded then x
    else Scan(x, |x.channels|).(refreshNeeded := Unidentified(x.channels, |x.channels|))
  }

  /** Every live channel among the first n is registered with its id, if it has one. */
  ghost predicate Refreshed(channels: seq<Channel>, n: nat)
    requires n <= |channels|
  {
    forall i :: 0 <= i < n && !channels[i].closed ==> channels[i].registered == EffectiveId(channels[i])
  }

  lemma SameView(a: seq<Channel>, b: seq<Channel>, i: nat)
    requires i < |a| && Views(a) == Views(b)
    ensures |a| == |b| && ViewOf(a[i]) == ViewOf(b[i])
  {
    assert |Views(a)| == |Views(b)|;
    assert Views(a)[i] == Views(b)[i];
  }

  /** What the refresh has achieved after n channels. */
  ghost predicate Scanned(x: Index, y: Index, n: nat)
    requires n <= |y.channels|
  {
    EntriesInv(y.(refreshNeeded := true)) && Views(y.channels) == Views(x.channels) && Refreshed(y.channels, n)
  }

  lemma ScanStep(x: Index, y: Index, n: nat)
    requires Distinct(Views(x.channels)) && n < |y.channels| && Scanned(x, y, n)
    ensures Scanned(x, ScanOne(y, n), n + 1)
  {
    if !y.channels[n].closed {
      RegisterKeeps(y, n);
      SameView(Register(y, n).channels, y.channels, n);
    }
  }

  lemma ScanKeeps(x: Index, n: nat)
    requires IndexInv(x) && n <= |x.channels|
    ensures Scanned(x, Scan(x, n), n)
  {
    var y := x;
    ScanStart(x);
    for k := 0 to n
      invariant |y.channels| == |x.channels| && y == Scan(x, k) && Scanned(x, y, k)
    {
      ScanStep(x, y, k);
      y := ScanOne(y, k);
    }
  }

  lemma ScanStart(x: Index)
    requires IndexInv(x)
    ensures Scanned(x, x, 0)
  {
  }

  lemma SaysIsRight(x: Index, id: nat)
    requires IndexInv(x)
    ensures Says(x, id) ==> InUse(Views(x.channels), id)
    ensures (forall i :: 0 <= i < |x.channels| && !x.channels[i].closed ==>
               x.channels[i].registered == EffectiveId(x.channels[i]))
            ==> (Says(x, id) <==> InUse(Views(x.channels), id))
  {
    UsedIdsAreUsed(x);
    if InUse(Views(x.channels), id) {
      var i :| 0 <= i < |x.channels| && Uses(Views(x.channels)[i], id);
      assert ChannelInv(x.(refreshNeeded := true), i);
    }
  }

  lemma RefreshKeepsInv(x: Index)
    requires IndexInv(x)
    ensures var r := Scan(x, |x.channels|).(refreshNeeded := Unidentified(x.channels, |x.channels|));
            && Inv(r) && Views(r.channels) == Views(x.channels)
            && (forall i :: 0 <= i < |r.channels| && !r.channels[i].closed ==>
                  r.channels[i].registered == EffectiveId(r.channels[i]))
  {
    var n := |x.channels|;
    ScanKeeps(x, n);
    var y := Scan(x, n);
    var r := y.(refreshNeeded := Unidentified(x.channels, n));
    forall i | 0 <= i < n ensures ChannelInv(r, i) {
      assert ChannelInv(y.(refreshNeeded := true), i);
      assert Views(y.channels)[i] == Views(x.channels)[i] == ViewOf(x.channels[i]) == ViewOf(y.channels[i]);
    }
  }

  /**
    A query answers exactly whether some live channel has the id, whatever the index had
    missed before, and changes nothing but the index.
   */
  lemma QueryIsExact(x: Index, id: nat)
    requires Inv(x)
    ensures var r := AfterQuery(x, id);
            && Inv(r) && Views(r.channels) == Views(x.channels)
            && (Says(r, id) <==> InUse(Views(x.channels), id))
  {
    forall i | 0 <= i < |x.channels| ensures ChannelInv(x.(refreshNeeded := true), i) {
      assert ChannelInv(x, i);
    }
    SaysIsRight(x, id);
    if !Says(x, id) && x.refreshNeeded {
      RefreshKeepsInv(x);
      var r := AfterQuery(x, id);
      forall i | 0 <= i < |r.channels| ensures ChannelInv(r.(refreshNeeded := true), i) {
        assert ChannelInv(r, i);
      }
      SaysIsRight(r, id);
    } else if !Says(x, id) {
      forall i | 0 <= i < |x.channels| && !x.channels[i].closed
        ensures x.channels[i].registered == EffectiveId(x.channels[i])
      {
        assert ChannelInv(x, i);
      }
    }
  }

  // ---- the other operations -------------------------------------------------

  function Close(x: Index, i: nat): Index
    requires i < |x.channels|
  {
    if x.channels[i].closed then x
    else
      var u := Unregister(x, i);
      u.(channels := u.channels[i := u.channels[i].(closed := true)])
  }

  lemma CloseKeeps(x: Index, i: nat)
    requires Inv(x) && i < |x.channels|
    ensures var r := Close(x, i);
            Inv(r) && |r.channels| == |x.channels|
            && Views(r.channels) == Views(x.channels)[i := ViewOf(x.channels[i]).(closed := true)]
  {
    var r := Close(x, i);
    assert ChannelInv(x, i);
    forall j | 0 <= j < |r.channels| ensures ChannelInv(r, j) {
      assert ChannelInv(x, j);
    }
    forall a, b, id | 0 <= a < |r.channels| && 0 <= b < |r.channels|
                      && Uses(Views(r.channels)[a], id) && Uses(Views(r.channels)[b], id) ensures a == b {
      assert Uses(Views(x.channels)[a], id) && Uses(Views(x.channels)[b], id);
    }
  }

  /** An id this channel may take: its own, or one no live channel has. */
  ghost predicate MayTake(x: Index, i: nat, id: nat) {
    forall j :: 0 <= j < |x.channels| && j != i ==> !Uses(Views(x.channels)[j], id)
  }

  /** A channel without an id gets one, by assignment or from the native side. */
  lemma TakeIdKeeps(x: Index, i: nat, c: Channel)
    requires Inv(x) && i < |x.channels| && !x.channels[i].closed && !c.closed
    requires EffectiveId(c).Some? && MayTake(x, i, EffectiveId(c).value) && c.registered == x.channels[i].registered
    requires c.nativeId.Some? && c.assignedId.Some? ==> c.nativeId == c.assignedId
    requires x.channels[i].registered.Some? ==> EffectiveId(c) == EffectiveId(x.channels[i])
    ensures var r := x.(channels := x.channels[i := c]);
            && Inv(r) && IndexInv(r) && Views(r.channels) == Views(x.channels)[i := ViewOf(c)]
  {
    var r := x.(channels := x.channels[i := c]);
    assert ChannelInv(x, i);
    forall j | 0 <= j < |r.channels| ensures ChannelInv(r, j) && ChannelInv(r.(refreshNeeded := true), j) {
      assert ChannelInv(x, j);
    }
    assert Views(r.channels) == Views(x.channels)[i := ViewOf(c)];
    assert forall a :: 0 <= a < |x.channels| && a != i ==> Views(r.channels)[a] == Views(x.channels)[a];
  }

  /** Registering one more channel leaves no live one out that was in. */
  lemma FlagSurvives(x: Index, r: Index)
    requires Inv(x) && IndexInv(r) && |r.channels| == |x.channels| && r.refreshNeeded == x.refreshNeeded
    requires forall j :: 0 <= j < |x.channels| && r.channels[j] != x.channels[j] ==> r.channels[j].registered.Some?
    ensures Inv(r)
  {
    forall j | 0 <= j < |r.channels| ensures ChannelInv(r, j) {
      assert ChannelInv(r.(refreshNeeded := true), j) && ChannelInv(x, j);
    }
  }

  lemma CreateKeeps(x: Index, c: Channel)
    requires Inv(x) && !c.closed && c.registered.None?
    requires EffectiveId(c).Some? ==> !InUse(Views(x.channels), EffectiveId(c).value)
    requires c.nativeId.Some? && c.assignedId.Some? ==> c.nativeId == c.assignedId
    ensures var r := x.(channels := x.channels + [c]);
            IndexInv(r) && Views(r.channels) == Views(x.channels) + [ViewOf(c)]
            && forall j :: 0 <= j < |x.channels| ==> ChannelInv(r, j)
  {
    var r := x.(channels := x.channels + [c]);
    forall j | 0 <= j < |x.channels| ensures ChannelInv(r, j) && ChannelInv(r.(refreshNeeded := true), j) {
      assert ChannelInv(x, j);
    }
    assert Views(r.channels) == Views(x.channels) + [ViewOf(c)];
    assert forall a :: 0 <= a < |x.channels| ==> Views(r.channels)[a] == Views(x.channels)[a];
  }

  lemma CreatedKeeps(x: Index, r: Index, i: nat)
    requires IndexInv(x) && IndexInv(r) && |r.channels| == |x.channels| == i + 1
    requires forall j :: 0 <= j < i ==> ChannelInv(x, j) && r.channels[j] == x.channels[j]
    requires x.refreshNeeded ==> r.refreshNeeded
    requires r.channels[i].registered.Some? || r.refreshNeeded
    ensures Inv(r)
  {
    forall j | 0 <= j < |r.channels| ensures ChannelInv(r, j) {
      assert ChannelInv(r.(refreshNeeded := true), j);
      assert j < i ==> ChannelInv(x, j);
    }
  }

  // ---- channels that come by an id ------------------------------------------

  /** _assignId: a channel that has an id keeps it. */
  function Assigned(x: Index, i: nat, id: nat): Index
    requires i < |x.channels|
  {
    if EffectiveId(x.channels[i]).Some? then x
    else Register(x.(channels := x.channels[i := x.channels[i].(assignedId := Some(id))]), i)
  }

  /** A new channel is registered, or marks the index for refresh. */
  function Created(x: Index, negotiated: bool, nativeId: Option<nat>, assignedId: Option<nat>): Index {
    var i := |x.channels|;
    var r := Register(x.(channels := x.channels + [Channel(negotiated, nativeId, assignedId, None, false)]), i);
    if r.channels[i].registered.None? && EffectiveId(r.channels[i]).None? then r.(refreshNeeded := true) else r
  }

  /** The native side comes to know the channel's id; nobody is told. */
  function Learned(x: Index, i: nat, id: nat): Index
    requires i < |x.channels|
  {
    x.(channels := x.channels[i := x.channels[i].(nativeId := Some(id))])
  }

  lemma ClashBreaksDistinct(channels: seq<Channel>, i: nat, j: nat, id: nat)
    requires i < |channels| && j < |channels| && i != j
    requires Uses(ViewOf(channels[i]), id) && Uses(ViewOf(channels[j]), id)
    ensures !Distinct(Views(channels))
  {
    assert Uses(Views(channels)[i], id) && Uses(Views(channels)[j], id);
  }

  lemma UnclashedAssignment(x: Index, i: nat, id: nat)
    requires Inv(x) && i < |x.channels| && !x.channels[i].closed && EffectiveId(x.channels[i]).None?
    requires !InUse(Views(x.channels), id)
    ensures var r := Assigned(x, i, id);
            && Inv(r) && r.channels[i].registered == Some(id)
            && Views(r.channels) == Views(x.channels)[i := ViewOf(x.channels[i]).(id := Some(id))]
  {
    var c := x.channels[i].(assignedId := Some(id));
    assert MayTake(x, i, id);
    assert ChannelInv(x, i);
    TakeIdKeeps(x, i, c);
    var y := x.(channels := x.channels[i := c]);
    RegisterKeeps(y, i);
    FlagSurvives(y, Register(y, i));
  }

  /** Assigning keeps the registry right exactly when the channel has an id already or the id is free. */
  lemma AssignedKeepsExactly(x: Index, i: nat, id: nat)
    requires Inv(x) && i < |x.channels| && !x.channels[i].closed
    ensures Inv(Assigned(x, i, id)) <==> EffectiveId(x.channels[i]).Some? || !InUse(Views(x.channels), id)
  {
    if EffectiveId(x.channels[i]).None? {
      if InUse(Views(x.channels), id) {
        var j :| 0 <= j < |x.channels| && Uses(Views(x.channels)[j], id);
        var y := x.(channels := x.channels[i := x.channels[i].(assignedId := Some(id))]);
        RegisterKeepsIds(y, i);
        ClashBreaksDistinct(Assigned(x, i, id).channels, i, j, id);
      } else {
        UnclashedAssignment(x, i, id);
      }
    }
  }

  /** Registering touches nothing but what is registered. */
  lemma RegisterKeepsIds(x: Index, i: nat)
    requires i < |x.channels|
    ensures var r := Register(x, i);
            forall j :: 0 <= j < |x.channels| ==> r.channels[j] == x.channels[j].(registered := r.channels[j].registered)
  {
  }

  /** The ids of a new channel are its own and agree. */
  predicate OwnIds(x: Index, nativeId: Option<nat>, assignedId: Option<nat>) {
    && (nativeId.Some? && assignedId.Some? ==> nativeId == assignedId)
    && (nativeId.Some? ==> !InUse(Views(x.channels), nativeId.value))
    && (assignedId.Some? ==> !InUse(Views(x.channels), assignedId.value))
  }

  lemma UnclashedCreation(x: Index, negotiated: bool, nativeId: Option<nat>, assignedId: Option<nat>)
    requires Inv(x) && OwnIds(x, nativeId, assignedId)
    ensures var r := Created(x, negotiated, nativeId, assignedId);
            && Inv(r)
            && Views(r.channels) ==
                 Views(x.channels) + [View(negotiated, if nativeId.Some? then nativeId else assignedId, false)]
  {
    var i, c := |x.channels|, Channel(negotiated, nativeId, assignedId, None, false);
    var y := x.(channels := x.channels + [c]);
    CreateKeeps(x, c);
    RegisterKeeps(y, i);
    CreatedKeeps(y, Created(x, negotiated, nativeId, assignedId), i);
  }

  /** Creation keeps the registry right exactly when the ids agree and are free. */
  lemma CreatedKeepsExactly(x: Index, negotiated: bool, nativeId: Option<nat>, assignedId: Option<nat>)
    requires Inv(x)
    ensures Inv(Created(x, negotiated, nativeId, assignedId)) <==> OwnIds(x, nativeId, assignedId)
  {
    var i, r := |x.channels|, Created(x, negotiated, nativeId, assignedId);
    var y := x.(channels := x.channels + [Channel(negotiated, nativeId, assignedId, None, false)]);
    RegisterKeepsIds(y, i);
    if OwnIds(x, nativeId, assignedId) {
      UnclashedCreation(x, negotiated, nativeId, assignedId);
    } else if nativeId.Some? && assignedId.Some? && nativeId != assignedId {
      assert !ChannelInv(r, i);
    } else {
      var id := if nativeId.Some? then nativeId.value else assignedId.value;
      var j :| 0 <= j < |x.channels| && Uses(Views(x.channels)[j], id);
      ClashBreaksDistinct(r.channels, i, j, id);
    }
  }

  /** It is the assigned id, if there is one, and no one else's. */
  ghost predicate MayLearn(x: Index, i: nat, id: nat)
    requires i < |x.channels|
  {
    (x.channels[i].assignedId.None? || x.channels[i].assignedId == Some(id)) && MayTake(x, i, id)
  }

  /** A native id keeps the registry right exactly when it is the assigned one, if any, and no one else's. */
  lemma LearnedKeepsExactly(x: Index, i: nat, id: nat)
    requires Inv(x) && i < |x.channels| && !x.channels[i].closed && x.channels[i].nativeId.None?
    ensures Inv(Learned(x, i, id)) <==> MayLearn(x, i, id)
    ensures Views(Learned(x, i, id).channels) == Views(x.channels)[i := ViewOf(x.channels[i]).(id := Some(id))]
  {
    var c, r := x.channels[i].(nativeId := Some(id)), Learned(x, i, id);
    assert ChannelInv(x, i);
    if c.assignedId.Some? && c.assignedId != Some(id) {
      assert !ChannelInv(r, i);
    } else if MayTake(x, i, id) {
      TakeIdKeeps(x, i, c);
    } else {
      var j :| 0 <= j < |x.channels| && j != i && Uses(Views(x.channels)[j], id);
      ClashBreaksDistinct(r.channels, i, j, id);
    }
  }

  // ---- the class ------------------------------------------------------------

  /** The channels of one peer connection and their index of used ids. */
  class Registry {
    var channels: seq<Channel>
    var usedIds: map<nat, nat>
    var refreshNeeded: bool

    ghost function Abs(): Index
      reads this
    {
      Index(channels, usedIds, refreshNeeded)
    }

    constructor ()
      ensures Inv(Abs()) && channels == []
    {
      channels, usedIds, refreshNeeded := [], map[], false;
    }

    method UnregisterId(i: nat)
      requires i < |channels|
      modifies this`channels, this`usedIds
      ensures Abs() == Unregister(old(Abs()), i)
    {
      var id := channels[i].registered;
      if id.None? {
        return;
      }
      if id.value in usedIds && usedIds[id.value] == i {
        usedIds := usedIds - {id.value};
      }
      channels := channels[i := channels[i].(registered := None)];
    }

    method RegisterId(i: nat)
      requires i < |channels|
      modifies this`channels, this`usedIds
      ensures Abs() == Register(old(Abs()), i)
    {
      var id := EffectiveId(channels[i]);
      if id.None? || channels[i].registered == id {
        return;
      }
      UnregisterId(i);
      if id.value in usedIds {
        var existing := usedIds[id.value];
        if existing != i && existing < |channels| && !channels[existing].closed {
          return;
        }
      }
      channels := channels[i := channels[i].(registered := id)];
      usedIds := usedIds[id.value := i];
    }

    /** The query with its lazy refresh. */
    method IsInUse(id: nat) returns (r: bool)
      requires Inv(Abs())
      modifies this
      ensures r == InUse(Views(old(channels)), id)
      ensures Abs() == AfterQuery(old(Abs()), id)
      ensures Inv(Abs()) && Views(channels) == Views(old(channels))
    {
      QueryIsExact(Abs(), id);
      if id in usedIds && !channels[usedIds[id]].closed {
        return true;
      }
      if !refreshNeeded {
        return false;
      }
      var stillNeeded := RefreshIndex();
      refreshNeeded := stillNeeded;
      r := id in usedIds && usedIds[id] < |channels| && !channels[usedIds[id]].closed;
    }

    /** Registers what has got an id meanwhile; says whether a live channel still has none. */
    method RefreshIndex() returns (stillNeeded: bool)
      requires IndexInv(Abs())
      modifies this`channels, this`usedIds
      ensures Abs() == Scan(old(Abs()), |old(channels)|)
      ensures stillNeeded == Unidentified(old(channels), |old(channels)|)
    {
      stillNeeded := false;
      for i := 0 to |channels|
        invariant |channels| == |old(channels)| && Abs() == Scan(old(Abs()), i)
        invariant stillNeeded == Unidentified(old(channels), i)
      {
        ScanKeeps(old(Abs()), i);
        assert ViewOf(channels[i]) == Views(channels)[i] == Views(old(channels))[i] == ViewOf(old(channels)[i]);
        if !channels[i].closed {
          if EffectiveId(channels[i]).None? {
            stillNeeded := true;
          }
          RegisterId(i);
        }
      }
    }

    /** Looks for the least free id of a parity. */
    method NextAvailable(parity: nat) returns (r: Option<nat>)
      requires Inv(Abs())
      modifies this
      ensures r == FreeFrom(Views(old(channels)), parity)
      ensures Inv(Abs()) && Views(channels) == Views(old(channels))
    {
      var id := parity;
      while id <= LAST_ID
        invariant Inv(Abs()) && Views(channels) == Views(old(channels))
        invariant FreeFrom(Views(channels), parity) == FreeFrom(Views(channels), id)
        decreases LAST_ID + 2 - id
      {
        var used := IsInUse(id);
        if !used {
          return Some(id);
        }
        id := id + 2;
      }
      return None;
    }

    method CloseChannel(i: nat)
      requires Inv(Abs()) && i < |channels|
      modifies this`channels, this`usedIds
      ensures Inv(Abs())
      ensures Views(channels) == Views(old(channels))[i := ViewOf(old(channels)[i]).(closed := true)]
    {
      CloseKeeps(Abs(), i);
      if channels[i].closed {
        return;
      }
      UnregisterId(i);
      channels := channels[i := channels[i].(closed := true)];
    }

    /** _assignId: only a channel without any id takes one. */
    method AssignId(i: nat, id: nat)
      requires i < |channels|
      modifies this`channels, this`usedIds
      ensures Abs() == Assigned(old(Abs()), i, id)
      ensures old(Inv(Abs()) && !channels[i].closed && !InUse(Views(channels), id)) ==> Inv(Abs())
    {
      if Inv(Abs()) && !channels[i].closed && !InUse(Views(channels), id) {
        AssignedKeepsExactly(Abs(), i, id);
      }
      if channels[i].nativeId.Some? || channels[i].assignedId.Some? {
        return;
      }
      channels := channels[i := channels[i].(assignedId := Some(id))];
      RegisterId(i);
    }

    method AssignFromDtlsRole(remoteIsAnswer: bool, localIsOffer: bool, setup: DtlsSetup)
      requires Inv(Abs())
      modifies this
      ensures Inv(Abs())
      ensures Views(channels) == AssignedFromRole(Views(old(channels)), remoteIsAnswer, localIsOffer, setup)
      ensures if remoteIsAnswer && localIsOffer && setup == Passive then
                HaveLeastFree(Views(old(channels)), Views(channels), 0)
              else if remoteIsAnswer && localIsOffer && setup == Active then
                HaveLeastFree(Views(old(channels)), Views(channels), 1)
              else Views(channels) == Views(old(channels))
    {
      RoleDecidesIds(Views(channels), remoteIsAnswer, localIsOffer, setup);
      var parity := ParityFromDtlsRole(remoteIsAnswer, localIsOffer, setup);
      if parity.None? {
        return;
      }
      for i := 0 to |channels|
        invariant |channels| == |old(channels)| && Inv(Abs())
        invariant Views(channels) == AssignFirst(Views(old(channels)), i, parity.value)
      {
        AssignChannel(i, parity.value);
      }
    }

    /** The least free id for a channel that needs one; without a free id the channel fails. */
    method AssignChannel(i: nat, parity: nat)
      requires Inv(Abs()) && i < |channels|
      modifies this
      ensures Inv(Abs()) && |channels| == |old(channels)|
      ensures Views(channels) == AssignOne(Views(old(channels)), i, parity)
    {
      assert Views(channels)[i] == ViewOf(channels[i]);
      if channels[i].negotiated || EffectiveId(channels[i]).Some? || channels[i].closed {
        return;
      }
      var id := NextAvailable(parity);
      assert Views(channels)[i] == ViewOf(channels[i]);
      if id.None? {
        CloseChannel(i);
      } else {
        UnclashedAssignment(Abs(), i, id.value);
        AssignId(i, id.value);
      }
    }

    method Create(negotiated: bool, nativeId: Option<nat>, assignedId: Option<nat>)
      modifies this
      ensures Abs() == Created(old(Abs()), negotiated, nativeId, assignedId)
      ensures old(Inv(Abs()) && OwnIds(Abs(), nativeId, assignedId)) ==>
                Inv(Abs()) && Views(channels) ==
                  Views(old(channels)) + [View(negotiated, if nativeId.Some? then nativeId else assignedId, false)]
    {
      if Inv(Abs()) && OwnIds(Abs(), nativeId, assignedId) {
        UnclashedCreation(Abs(), negotiated, nativeId, assignedId);
      }
      var i := |channels|;
      channels := channels + [Channel(negotiated, nativeId, assignedId, None, false)];
      RegisterId(i);
      if channels[i].registered.None? && EffectiveId(channels[i]).None? {
        refreshNeeded := true;
      }
    }

    /** The native side has come to know the channel's id. */
    method LearnNativeId(i: nat, id: nat)
      requires i < |channels|
      modifies this`channels
      ensures Abs() == Learned(old(Abs()), i, id)
      ensures old(Inv(Abs()) && !channels[i].closed && channels[i].nativeId.None? && MayLearn(Abs(), i, id))
              ==> Inv(Abs())
    {
      if Inv(Abs()) && !channels[i].closed && channels[i].nativeId.None? {
        LearnedKeepsExactly(Abs(), i, id);
      }
      channels := channels[i := channels[i].(nativeId := Some(id))];
    }
  }
}
