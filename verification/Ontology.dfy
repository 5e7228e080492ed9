/** The spatial entity graph of `core/ontology.py`. Great-circle distance and the
    dead-reckoning association are abstract functions. */
module Ontology {
  import opened Json

  datatype Observation = Observation(
    id: string,
    sourceId: string,
    entityHint: string,
    lat: real,
    lon: real,
    speed: real,
    confidence: real,
    observedAt: string,
    modality: string,
    attributes: map<string, string>,
    rawDigest: string)

  /** The numbers and tests an association looks at. */
  datatype Fabric = Fabric(
    radius: real,
    haversine: (real, real, real, real) -> real,
    kinematic: (Observation, Observation) -> bool,
    separation: (Observation, Observation) -> Option<real>,
    hash: Observation -> string)

  /** `ensure_digest`: fill in the digest unless one is there. */
  function EnsureDigest(f: Fabric, o: Observation): Observation {
    if o.rawDigest != "" then o else o.(rawDigest := f.hash(o.(rawDigest := "")))
  }

  function Preferred(o: Observation): string {
    if o.entityHint != "" then o.entityHint else o.sourceId
  }

  /** A digest that is there is kept; a missing one is the hash of the rest of the observation,
      and nothing else is touched. */
  lemma DigestFilled(f: Fabric, o: Observation)
    ensures var d := EnsureDigest(f, o);
      && d.(rawDigest := "") == o.(rawDigest := "")
      && d.rawDigest == (if o.rawDigest == "" then f.hash(d.(rawDigest := "")) else o.rawDigest)
  {
  }

  // ---------------------------------------------------------------- track state

  datatype TrackState = TrackState(
    trackId: string,
    lat: real,
    lon: real,
    speed: real,
    confidence: real,
    sourceIds: seq<string>,
    modalities: seq<string>,
    observationIds: seq<string>,
    digests: seq<string>,
    updatedAt: string,
    attributes: map<string, string>)

  function Opened(trackId: string, o: Observation): TrackState {
    TrackState(trackId, o.lat, o.lon, o.speed, o.confidence, [o.sourceId], [o.modality], [o.id], [o.rawDigest],
               o.observedAt, o.attributes)
  }

  function AddOnce(s: seq<string>, x: string): seq<string> {
    if x in s then s else s + [x]
  }

  function Absorbed(t: TrackState, o: Observation): TrackState {
    var better := o.confidence >= t.confidence;
    TrackState(
      t.trackId,
      if better then o.lat else t.lat,
      if better then o.lon else t.lon,
      if better then o.speed else t.speed,
      if better then o.confidence else t.confidence,
      AddOnce(t.sourceIds, o.sourceId),
      AddOnce(t.modalities, o.modality),
      t.observationIds + [o.id],
      t.digests + [o.rawDigest],
      o.observedAt,
      t.attributes + o.attributes)
  }

  /** The state of a track that received these observations in this order. */
  function Fold(trackId: string, members: seq<Observation>): TrackState
    requires members != []
  {
    if |members| == 1 then Opened(trackId, members[0])
    else Absorbed(Fold(trackId, members[..|members| - 1]), members[|members| - 1])
  }

  lemma FoldSnoc(trackId: string, members: seq<Observation>, o: Observation)
    requires members != []
    ensures Fold(trackId, members + [o]) == Absorbed(Fold(trackId, members), o)
  {
    assert (members + [o])[..|members|] == members;
  }

  predicate NoDuplicates(s: seq<string>) {
    forall i, j :: 0 <= i < j < |s| ==> s[i] != s[j]
  }

  /** `k` is the last of the members with the greatest confidence. */
  predicate LatestBest(members: seq<Observation>, k: nat) {
    k < |members| &&
    (forall i :: 0 <= i < |members| ==> members[i].confidence <= members[k].confidence) &&
    (forall i :: k < i < |members| ==> members[i].confidence < members[k].confidence)
  }

  function BestIndex(members: seq<Observation>): nat
    requires members != []
  {
    var n := |members| - 1;
    if n == 0 then 0
    else
      var b := BestIndex(members[..n]);
      if b < n && members[n].confidence < members[b].confidence then b else n
  }

  lemma {:induction false} BestIndexIsBest(members: seq<Observation>)
    requires members != []
    ensures LatestBest(members, BestIndex(members))
  {
    if |members| > 1 {
      var front := members[..|members| - 1];
      BestIndexIsBest(front);
      assert forall i :: 0 <= i < |front| ==> front[i] == members[i];
    }
  }

  /** Kinematics and confidence are those of the latest most confident observation; ids
      and digests are listed in order; time stamp is the last one's. */
  lemma {:induction false} FoldIsLatestBest(trackId: string, members: seq<Observation>)
    requires members != []
    ensures var t := Fold(trackId, members);
      var best := members[BestIndex(members)];
      && LatestBest(members, BestIndex(members))
      && t.trackId == trackId
      && t.confidence == best.confidence && t.lat == best.lat && t.lon == best.lon && t.speed == best.speed
      && t.updatedAt == members[|members| - 1].observedAt
      && |t.observationIds| == |t.digests| == |members|
      && forall i :: 0 <= i < |members| ==> t.observationIds[i] == members[i].id && t.digests[i] == members[i].rawDigest
  {
    BestIndexIsBest(members);
    if |members| > 1 {
      var front := members[..|members| - 1];
      FoldIsLatestBest(trackId, front);
      assert forall i :: 0 <= i < |front| ==> front[i] == members[i];
    }
  }

  /** Attributes are overwritten key by key: each has the value of the last member with it. */
  lemma {:induction false} FoldMergesAttributes(trackId: string, members: seq<Observation>, key: string)
    requires members != []
    ensures var a := Fold(trackId, members).attributes;
      && (key in a <==> exists i :: 0 <= i < |members| && key in members[i].attributes)
      && (forall i :: 0 <= i < |members| && LastWith(members, key, i) ==> a[key] == members[i].attributes[key])
  {
    if |members| > 1 {
      var n := |members| - 1;
      var front := members[..n];
      FoldMergesAttributes(trackId, front, key);
      assert forall i :: 0 <= i < n && LastWith(members, key, i) ==> LastWith(front, key, i);
    }
  }

  predicate LastWith(members: seq<Observation>, key: string, i: nat)
    requires i < |members|
  {
    key in members[i].attributes && forall j :: i < j < |members| ==> key !in members[j].attributes
  }

  /** Sources and modalities stay where they were first listed. */
  lemma FoldKeepsOrder(trackId: string, members: seq<Observation>, o: Observation)
    requires members != []
    ensures var t, u := Fold(trackId, members), Fold(trackId, members + [o]);
      && t.sourceIds <= u.sourceIds && |u.sourceIds| <= |t.sourceIds| + 1
      && t.modalities <= u.modalities && |u.modalities| <= |t.modalities| + 1
  {
    FoldSnoc(trackId, members, o);
  }

  function Elements(s: seq<string>): set<string> {
    set x | x in s
  }

  lemma AddOnceElements(s: seq<string>, x: string)
    requires NoDuplicates(s)
    ensures NoDuplicates(AddOnce(s, x)) && Elements(AddOnce(s, x)) == Elements(s) + {x}
  {
  }

  /** Sources and modalities are listed without repetition, and are exactly those seen. */
  lemma {:induction false} FoldSeesEverySource(trackId: string, members: seq<Observation>)
    requires members != []
    ensures var t := Fold(trackId, members);
      && NoDuplicates(t.sourceIds) && Elements(t.sourceIds) == (set o | o in members :: o.sourceId)
      && NoDuplicates(t.modalities) && Elements(t.modalities) == (set o | o in members :: o.modality)
  {
    if |members| > 1 {
      var front, last := members[..|members| - 1], members[|members| - 1];
      FoldSeesEverySource(trackId, front);
      var t := Fold(trackId, front);
      AddOnceElements(t.sourceIds, last.sourceId);
      AddOnceElements(t.modalities, last.modality);
      assert members == front + [last];
      assert (set o | o in members :: o.sourceId) == (set o | o in front :: o.sourceId) + {last.sourceId};
      assert (set o | o in members :: o.modality) == (set o | o in front :: o.modality) + {last.modality};
    }
  }

  // ---------------------------------------------------------------- association

  /** Separation to the first already seen member that associates kinematically. */
  function FirstSeparation(f: Fabric, seen: seq<Observation>, o: Observation, t: TrackState, i: nat): Option<real>
    requires i <= |seen|
    decreases |seen| - i
  {
    if i == |seen| then None
    else if seen[i].id in t.observationIds && f.kinematic(o, seen[i]) && f.separation(o, seen[i]).Some? then
      f.separation(o, seen[i])
    else FirstSeparation(f, seen, o, t, i + 1)
  }

  /** `_association_distance_m` */
  function Distance(f: Fabric, seen: seq<Observation>, o: Observation, t: TrackState): Option<real> {
    var d := f.haversine(o.lat, o.lon, t.lat, t.lon);
    if d <= f.radius then Some(d) else FirstSeparation(f, seen, o, t, 0)
  }

  /** The i-th seen observation is one of the track's own, associates kinematically with the
      new one, and has a separation from it. */
  predicate Relates(f: Fabric, seen: seq<Observation>, o: Observation, t: TrackState, i: nat)
    requires i < |seen|
  {
    seen[i].id in t.observationIds && f.kinematic(o, seen[i]) && f.separation(o, seen[i]).Some?
  }

  lemma {:induction false} FirstRelates(f: Fabric, seen: seq<Observation>, o: Observation, t: TrackState, from: nat)
    returns (i: nat)
    requires from <= |seen|
    ensures from <= i <= |seen| && forall j :: from <= j < i ==> !Relates(f, seen, o, t, j)
    ensures i < |seen| ==> Relates(f, seen, o, t, i)
    ensures FirstSeparation(f, seen, o, t, from) == if i < |seen| then f.separation(o, seen[i]) else None
    decreases |seen| - from
  {
    if from == |seen| || Relates(f, seen, o, t, from) {
      i := from;
    } else {
      i := FirstRelates(f, seen, o, t, from + 1);
    }
  }

  predicate FirstToRelate(f: Fabric, seen: seq<Observation>, o: Observation, t: TrackState, i: nat)
    requires i < |seen|
  {
    Relates(f, seen, o, t, i) && forall j :: 0 <= j < i ==> !Relates(f, seen, o, t, j)
  }

  /** What an association distance is. Within the radius, the great-circle one. Beyond it, the
      separation of the first seen observation of the track that relates to the new one, and
      none exactly when no observation of the track does. */
  lemma DistanceExact(f: Fabric, seen: seq<Observation>, o: Observation, t: TrackState)
    ensures var near, d := f.haversine(o.lat, o.lon, t.lat, t.lon), Distance(f, seen, o, t);
      && (near <= f.radius ==> d == Some(near))
      && (near > f.radius ==>
            && (d.Some? ==> exists i :: 0 <= i < |seen| && FirstToRelate(f, seen, o, t, i) &&
                              d == f.separation(o, seen[i]))
            && (forall i :: 0 <= i < |seen| && FirstToRelate(f, seen, o, t, i) ==> d == f.separation(o, seen[i]))
            && (d.None? <==> forall i :: 0 <= i < |seen| ==> !Relates(f, seen, o, t, i)))
  {
    var i := FirstRelates(f, seen, o, t, 0);
    if i < |seen| {
      assert FirstToRelate(f, seen, o, t, i);
    }
  }

  /** A track seen as the observations it received. */
  datatype Group = Group(trackId: string, members: seq<Observation>) {
    predicate Ok() {
      members != []
    }

    function Track(): TrackState
      requires Ok()
    {
      Fold(trackId, members)
    }
  }

  predicate GroupsOk(groups: seq<Group>) {
    forall i :: 0 <= i < |groups| ==> groups[i].Ok()
  }

  function IndexOf(groups: seq<Group>, trackId: string): (r: Option<nat>)
    ensures r.Some? ==> r.value < |groups| && groups[r.value].trackId == trackId
    ensures r.None? ==> forall i :: 0 <= i < |groups| ==> groups[i].trackId != trackId
  {
    if groups == [] then None
    else
      var n := |groups| - 1;
      if groups[n].trackId == trackId then Some(n) else IndexOf(groups[..n], trackId)
  }

  function States(groups: seq<Group>): (r: seq<TrackState>)
    requires GroupsOk(groups)
    ensures |r| == |groups|
    ensures forall i :: 0 <= i < |groups| ==> r[i] == groups[i].Track()
  {
    seq(|groups|, i requires 0 <= i < |groups| => groups[i].Track())
  }

  /** Nearest of the first `n` tracks, the earliest on a tie. */
  function Nearest(f: Fabric, seen: seq<Observation>, states: seq<TrackState>, o: Observation, n: nat): (r: Option<nat>)
    requires n <= |states|
    ensures r.Some? ==> r.value < n && Distance(f, seen, o, states[r.value]).Some?
  {
    if n == 0 then None
    else
      var b := Nearest(f, seen, states, o, n - 1);
      var d := Distance(f, seen, o, states[n - 1]);
      if d.Some? && (b.None? || d.value < Distance(f, seen, o, states[b.value]).value) then Some(n - 1) else b
  }

  /** Where an observation goes: its own track, else the nearest, else nowhere yet. */
  function Target(f: Fabric, seen: seq<Observation>, groups: seq<Group>, o: Observation): Option<nat>
    requires GroupsOk(groups)
  {
    var own := IndexOf(groups, Preferred(o));
    if own.Some? then own else Nearest(f, seen, States(groups), o, |groups|)
  }

  function Ingested(f: Fabric, seen: seq<Observation>, groups: seq<Group>, o: Observation): (r: seq<Group>)
    requires GroupsOk(groups)
    ensures GroupsOk(r)
  {
    match Target(f, seen, groups, o)
    case None => groups + [Group(Preferred(o), [o])]
    case Some(k) => groups[k := Group(groups[k].trackId, groups[k].members + [o])]
  }

  /** The groups after ingesting a whole list into an empty graph. */
  function IngestAll(f: Fabric, obs: seq<Observation>): (r: seq<Group>)
    ensures GroupsOk(r)
  {
    if obs == [] then []
    else
      var n := |obs| - 1;
      Ingested(f, Digested(f, obs), IngestAll(f, obs[..n]), EnsureDigest(f, obs[n]))
  }

  function Digested(f: Fabric, obs: seq<Observation>): (r: seq<Observation>)
    ensures |r| == |obs|
    ensures forall i :: 0 <= i < |obs| ==> r[i] == EnsureDigest(f, obs[i])
  {
    if obs == [] then [] else Digested(f, obs[..|obs| - 1]) + [EnsureDigest(f, obs[|obs| - 1])]
  }

  // ---------------------------------------------------------------- laws

  /** The nearest track is nearest, and a miss means no track is in reach. */
  lemma {:induction false} NearestIsMinimal(f: Fabric, seen: seq<Observation>, states: seq<TrackState>, o: Observation,
                                            n: nat)
    requires n <= |states|
    ensures var r := Nearest(f, seen, states, o, n);
      && (r.None? ==> forall i :: 0 <= i < n ==> Distance(f, seen, o, states[i]).None?)
      && (r.Some? ==>
            var d := Distance(f, seen, o, states[r.value]).value;
            forall i :: 0 <= i < n && Distance(f, seen, o, states[i]).Some? ==>
              var e := Distance(f, seen, o, states[i]).value;
              d <= e && (i < r.value ==> d < e))
  {
    if n > 0 {
      NearestIsMinimal(f, seen, states, o, n - 1);
    }
  }

  /** One ingest: the track it lands in carries the preferred id, or no track does and
      none is nearer; otherwise one new track, under a key no track had. */
  lemma IngestChoice(f: Fabric, seen: seq<Observation>, groups: seq<Group>, o: Observation)
    requires GroupsOk(groups)
    ensures var out, id := Ingested(f, seen, groups, o), if o.entityHint == "" then o.sourceId else o.entityHint;
      match Target(f, seen, groups, o)
      case None =>
        && out == groups + [Group(id, [o])]
        && forall i :: 0 <= i < |groups| ==>
             groups[i].trackId != id && Distance(f, seen, o, groups[i].Track()).None?
      case Some(k) =>
        && k < |groups|
        && out == groups[k := Group(groups[k].trackId, groups[k].members + [o])]
        && (groups[k].trackId == id ||
            (Distance(f, seen, o, groups[k].Track()).Some? &&
             forall i :: 0 <= i < |groups| ==>
               && groups[i].trackId != id
               && (Distance(f, seen, o, groups[i].Track()).Some? ==>
                     Distance(f, seen, o, groups[k].Track()).value <= Distance(f, seen, o, groups[i].Track()).value)))
  {
    NearestIsMinimal(f, seen, States(groups), o, |groups|);
  }

  function TrackIds(groups: seq<Group>): seq<string> {
    seq(|groups|, i requires 0 <= i < |groups| => groups[i].trackId)
  }

  function AllMembers(groups: seq<Group>): multiset<Observation> {
    if groups == [] then multiset{}
    else AllMembers(groups[..|groups| - 1]) + multiset(groups[|groups| - 1].members)
  }

  lemma UpdateFront<T>(s: seq<T>, k: nat, x: T)
    requires k + 1 < |s|
    ensures s[k := x] == s[..|s| - 1][k := x] + [s[|s| - 1]]
  {
  }

  lemma UpdateLast<T>(s: seq<T>, x: T)
    requires |s| > 0
    ensures s == s[..|s| - 1] + [s[|s| - 1]] && s[|s| - 1 := x] == s[..|s| - 1] + [x]
  {
  }

  lemma AllMembersSnoc(groups: seq<Group>, g: Group)
    ensures AllMembers(groups + [g]) == AllMembers(groups) + multiset(g.members)
  {
    assert (groups + [g])[..|groups|] == groups;
  }

  lemma {:induction false} AllMembersUpdate(groups: seq<Group>, k: nat, g: Group, o: Observation)
    requires k < |groups| && g.members == groups[k].members + [o]
    ensures AllMembers(groups[k := g]) == AllMembers(groups) + multiset{o}
  {
    var front, last := groups[..|groups| - 1], groups[|groups| - 1];
    UpdateLast(groups, g);
    AllMembersSnoc(front, last);
    if k + 1 < |groups| {
      AllMembersUpdate(front, k, g, o);
      UpdateFront(groups, k, g);
      AllMembersSnoc(front[k := g], last);
    } else {
      AllMembersSnoc(front, g);
    }
  }

  /** One ingest puts the observation into exactly one track and takes nothing out;
      tracks are neither lost nor renamed, and keys stay distinct. */
  lemma IngestConserves(f: Fabric, seen: seq<Observation>, groups: seq<Group>, o: Observation)
    requires GroupsOk(groups) && NoDuplicates(TrackIds(groups))
    ensures var out := Ingested(f, seen, groups, o);
      && AllMembers(out) == AllMembers(groups) + multiset{o}
      && TrackIds(groups) <= TrackIds(out)
      && |out| <= |groups| + 1
      && NoDuplicates(TrackIds(out))
      && forall i :: 0 <= i < |groups| ==> groups[i].members <= out[i].members
  {
    var out := Ingested(f, seen, groups, o);
    match Target(f, seen, groups, o)
    case None =>
      assert out[..|groups|] == groups;
      IngestChoice(f, seen, groups, o);
    case Some(k) => AllMembersUpdate(groups, k, out[k], o);
  }

  /** After any list of ingests the tracks partition it: every observation, digest filled
      in, sits in one track, as often as it was ingested, under distinct keys. */
  lemma {:induction false} TracksPartition(f: Fabric, obs: seq<Observation>)
    ensures AllMembers(IngestAll(f, obs)) == multiset(Digested(f, obs))
    ensures NoDuplicates(TrackIds(IngestAll(f, obs)))
    ensures |IngestAll(f, obs)| <= |obs|
  {
    if obs != [] {
      var n := |obs| - 1;
      var groups, o := IngestAll(f, obs[..n]), EnsureDigest(f, obs[n]);
      TracksPartition(f, obs[..n]);
      IngestConserves(f, Digested(f, obs), groups, o);
      LastIngest(f, obs);
    }
  }

  lemma IngestOneMore(f: Fabric, obs: seq<Observation>, i: nat)
    requires i < |obs|
    ensures var o := EnsureDigest(f, obs[i]);
      && Digested(f, obs[..i + 1]) == Digested(f, obs[..i]) + [o]
      && IngestAll(f, obs[..i + 1]) == Ingested(f, Digested(f, obs[..i]) + [o], IngestAll(f, obs[..i]), o)
  {
    assert obs[..i + 1][..i] == obs[..i];
  }

  lemma LastIngest(f: Fabric, obs: seq<Observation>)
    requires obs != []
    ensures var front, o := obs[..|obs| - 1], EnsureDigest(f, obs[|obs| - 1]);
      && IngestAll(f, obs) == Ingested(f, Digested(f, obs), IngestAll(f, front), o)
      && multiset(Digested(f, obs)) == multiset(Digested(f, front)) + multiset{o}
  {
    var front, o := obs[..|obs| - 1], EnsureDigest(f, obs[|obs| - 1]);
    assert Digested(f, obs) == Digested(f, front) + [o];
  }

  function Ids(obs: seq<Observation>): (r: seq<string>)
    ensures |r| == |obs|
    ensures forall i :: 0 <= i < |obs| ==> r[i] == obs[i].id
  {
    seq(|obs|, i requires 0 <= i < |obs| => obs[i].id)
  }

  function IdsHeld(groups: seq<Group>): multiset<string> {
    if groups == [] then multiset{}
    else IdsHeld(groups[..|groups| - 1]) + multiset(Ids(groups[|groups| - 1].members))
  }

  lemma IdsSnoc(obs: seq<Observation>, o: Observation)
    ensures Ids(obs + [o]) == Ids(obs) + [o.id]
    ensures multiset(Ids(obs + [o])) == multiset(Ids(obs)) + multiset{o.id}
  {
    assert Ids(obs + [o]) == Ids(obs) + [o.id];
  }

  lemma IdsSplit(obs: seq<Observation>)
    requires obs != []
    ensures multiset(Ids(obs)) == multiset(Ids(obs[..|obs| - 1])) + multiset{obs[|obs| - 1].id}
  {
    var n := |obs| - 1;
    IdsSnoc(obs[..n], obs[n]);
    assert obs == obs[..n] + [obs[n]];
  }

  lemma IdsHeldSnoc(groups: seq<Group>, g: Group)
    ensures IdsHeld(groups + [g]) == IdsHeld(groups) + multiset(Ids(g.members))
  {
    assert (groups + [g])[..|groups|] == groups;
  }

  lemma {:induction false} IdsHeldUpdate(groups: seq<Group>, k: nat, g: Group, o: Observation)
    requires k < |groups| && g.members == groups[k].members + [o]
    ensures IdsHeld(groups[k := g]) == IdsHeld(groups) + multiset{o.id}
  {
    var front, last := groups[..|groups| - 1], groups[|groups| - 1];
    UpdateLast(groups, g);
    IdsHeldSnoc(front, last);
    if k + 1 < |groups| {
      IdsHeldUpdate(front, k, g, o);
      UpdateFront(groups, k, g);
      IdsHeldSnoc(front[k := g], last);
    } else {
      IdsHeldSnoc(front, g);
      IdsSnoc(last.members, o);
    }
  }

  lemma IngestKeepsIds(f: Fabric, seen: seq<Observation>, groups: seq<Group>, o: Observation)
    requires GroupsOk(groups)
    ensures IdsHeld(Ingested(f, seen, groups, o)) == IdsHeld(groups) + multiset{o.id}
  {
    var out := Ingested(f, seen, groups, o);
    match Target(f, seen, groups, o)
    case None =>
      assert out[..|groups|] == groups;
      assert Ids([o]) == [o.id];
    case Some(k) => IdsHeldUpdate(groups, k, out[k], o);
  }

  /** So do their ids, repeated ones included. */
  lemma {:induction false} IdsPartition(f: Fabric, obs: seq<Observation>)
    ensures IdsHeld(IngestAll(f, obs)) == multiset(Ids(obs))
  {
    if obs != [] {
      var n := |obs| - 1;
      IdsPartition(f, obs[..n]);
      var groups, o := IngestAll(f, obs[..n]), EnsureDigest(f, obs[n]);
      IngestKeepsIds(f, Digested(f, obs), groups, o);
      assert IngestAll(f, obs) == Ingested(f, Digested(f, obs), groups, o);
      IdsSplit(obs);
    }
  }

  lemma FoldListsIds(trackId: string, members: seq<Observation>)
    requires members != []
    ensures Fold(trackId, members).observationIds == Ids(members)
  {
    FoldIsLatestBest(trackId, members);
  }

  /** Observations with distinct preferred ids of which no two can associate. */
  predicate Apart(f: Fabric, obs: seq<Observation>) {
    && (forall i, j :: 0 <= i < j < |obs| ==>
          Preferred(obs[i]) != Preferred(obs[j]) &&
          f.haversine(obs[j].lat, obs[j].lon, obs[i].lat, obs[i].lon) > f.radius)
    && (forall i, j :: 0 <= i < |obs| && 0 <= j < |obs| ==>
          !f.kinematic(EnsureDigest(f, obs[j]), EnsureDigest(f, obs[i])))
  }

  lemma {:induction false} NoSeparation(f: Fabric, seen: seq<Observation>, o: Observation, t: TrackState, i: nat)
    requires i <= |seen| && forall j :: 0 <= j < |seen| ==> !f.kinematic(o, seen[j])
    ensures FirstSeparation(f, seen, o, t, i) == None
    decreases |seen| - i
  {
    if i < |seen| {
      NoSeparation(f, seen, o, t, i + 1);
    }
  }

  lemma ApartMiss(f: Fabric, obs: seq<Observation>, groups: seq<Group>)
    requires Apart(f, obs) && |obs| == |groups| + 1
    requires forall i :: 0 <= i < |groups| ==> groups[i] == Group(Preferred(obs[i]), [EnsureDigest(f, obs[i])])
    ensures GroupsOk(groups)
    ensures Target(f, Digested(f, obs), groups, EnsureDigest(f, obs[|groups|])) == None
  {
    var n := |groups|;
    var seen, o := Digested(f, obs), EnsureDigest(f, obs[n]);
    forall i | 0 <= i < n
      ensures groups[i].trackId != Preferred(o) && Distance(f, seen, o, groups[i].Track()).None?
    {
      NoSeparation(f, seen, o, groups[i].Track(), 0);
    }
    IngestChoice(f, seen, groups, o);
  }

  lemma ApartPrefix(f: Fabric, obs: seq<Observation>)
    requires Apart(f, obs) && obs != []
    ensures Apart(f, obs[..|obs| - 1])
  {
    var front := obs[..|obs| - 1];
    assert forall i :: 0 <= i < |front| ==> front[i] == obs[i];
  }

  /** One track per observation, in order. */
  function Singletons(f: Fabric, obs: seq<Observation>): (r: seq<Group>)
    ensures |r| == |obs|
    ensures forall i :: 0 <= i < |obs| ==> r[i] == Group(Preferred(obs[i]), [EnsureDigest(f, obs[i])])
  {
    seq(|obs|, i requires 0 <= i < |obs| => Group(Preferred(obs[i]), [EnsureDigest(f, obs[i])]))
  }

  lemma SingletonsSnoc(f: Fabric, obs: seq<Observation>)
    requires obs != []
    ensures var front, last := obs[..|obs| - 1], obs[|obs| - 1];
      Singletons(f, obs) == Singletons(f, front) + [Group(Preferred(last), [EnsureDigest(f, last)])]
  {
  }

  lemma MissOpensTrack(f: Fabric, obs: seq<Observation>)
    requires obs != [] && IngestAll(f, obs[..|obs| - 1]) == Singletons(f, obs[..|obs| - 1])
    requires Target(f, Digested(f, obs), IngestAll(f, obs[..|obs| - 1]), EnsureDigest(f, obs[|obs| - 1])) == None
    ensures IngestAll(f, obs) == Singletons(f, obs)
  {
    var front, last := obs[..|obs| - 1], obs[|obs| - 1];
    assert IngestAll(f, obs) == IngestAll(f, front) + [Group(Preferred(last), [EnsureDigest(f, last)])];
    SingletonsSnoc(f, obs);
  }

  /** Such observations open one track each: n ingests, n tracks. */
  lemma {:induction false} ApartOpensOneTrackEach(f: Fabric, obs: seq<Observation>)
    requires Apart(f, obs)
    ensures IngestAll(f, obs) == Singletons(f, obs)
  {
    if obs != [] {
      var n := |obs| - 1;
      ApartPrefix(f, obs);
      ApartOpensOneTrackEach(f, obs[..n]);
      ApartMiss(f, obs, Singletons(f, obs[..n]));
      MissOpensTrack(f, obs);
    }
  }
}
