/** `SpatialEntityGraph` as the program keeps it: a list of observations and a dictionary
    of mutable tracks, updated in place, proved to hold exactly the groups of `Ontology`. */
module EntityGraph {
  import opened Json
  import opened Ontology

  class Track {
    const trackId: string
    var lat: real
    var lon: real
    var speed: real
    var confidence: real
    var sourceIds: seq<string>
    var modalities: seq<string>
    var observationIds: seq<string>
    var digests: seq<string>
    var updatedAt: string
    var attributes: map<string, string>

    function State(): TrackState
      reads this
    {
      TrackState(trackId, lat, lon, speed, confidence, sourceIds, modalities, observationIds, digests, updatedAt,
                 attributes)
    }

    constructor (trackId: string, o: Observation)
      ensures this.trackId == trackId && State() == Opened(trackId, o)
    {
      this.trackId := trackId;
      lat, lon, speed, confidence := o.lat, o.lon, o.speed, o.confidence;
      sourceIds, modalities := [o.sourceId], [o.modality];
      observationIds, digests := [o.id], [o.rawDigest];
      updatedAt, attributes := o.observedAt, o.attributes;
    }

    /** The branch of `ingest` that updates an existing track. */
    method Absorb(o: Observation)
      modifies this
      ensures State() == Absorbed(old(State()), o)
    {
      if o.sourceId !in sourceIds {
        sourceIds := sourceIds + [o.sourceId];
      }
      if o.modality !in modalities {
        modalities := modalities + [o.modality];
      }
      observationIds := observationIds + [o.id];
      digests := digests + [o.rawDigest];
      if o.confidence >= confidence {
        lat, lon, speed, confidence := o.lat, o.lon, o.speed, o.confidence;
      }
      updatedAt := o.observedAt;
      attributes := attributes + o.attributes;
    }
  }

  lemma IngestedAt(f: Fabric, seen: seq<Observation>, groups: seq<Group>, o: Observation, target: Option<nat>)
    requires GroupsOk(groups) && target == Target(f, seen, groups, o)
    ensures target.Some? ==> target.value < |groups|
    ensures Ingested(f, seen, groups, o) ==
      match target
      case None => groups + [Group(Preferred(o), [o])]
      case Some(k) => groups[k := Group(groups[k].trackId, groups[k].members + [o])]
  {
  }

  class SpatialEntityGraph {
    const fabric: Fabric
    var observations: seq<Observation>
    var tracks: map<string, Track>
    var order: seq<string>       // dictionary order of `tracks`
    ghost var groups: seq<Group> // the tracks as the observations they received, in that order

    ghost var place: map<string, nat>  // where each key stands in that order

    ghost predicate Valid()
      reads `tracks, `order, `groups, `place, tracks.Values
    {
      && |groups| == |order| && GroupsOk(groups)
      && (forall i :: 0 <= i < |order| ==> Entry(i))
      && (forall k :: k in tracks ==> k in place && place[k] < |order| && order[place[k]] == k)
    }

    /** The i-th dictionary entry is the fold of the observations its group received. */
    ghost predicate Entry(i: nat)
      requires i < |order| && |groups| == |order|
      reads `tracks, `order, `groups, `place, tracks.Values
    {
      var id := order[i];
      && groups[i].trackId == id && groups[i].Ok()
      && id in tracks && tracks[id].trackId == id && tracks[id].State() == groups[i].Track()
      && id in place && place[id] == i
    }

    /** The `observation_ids` of the first n tracks, put together. */
    ghost function HeldIds(n: nat): multiset<string>
      requires Valid() && n <= |order|
      reads `tracks, `order, `groups, `place, tracks.Values
    {
      if n == 0 then multiset{}
      else
        assert Entry(n - 1);
        HeldIds(n - 1) + multiset(tracks[order[n - 1]].observationIds)
    }

    lemma {:induction false} HeldIdsAreMembers(n: nat)
      requires Valid() && n <= |order|
      ensures HeldIds(n) == IdsHeld(groups[..n])
    {
      if n > 0 {
        HeldIdsAreMembers(n - 1);
        assert Entry(n - 1);
        FoldListsIds(groups[n - 1].trackId, groups[n - 1].members);
        assert groups[..n][..n - 1] == groups[..n - 1];
      }
    }

    /** A graph that holds the groups of a list of ingests holds their ids, each as often as it
        was ingested, spread over its tracks. */
    lemma TracksHoldEveryId(obs: seq<Observation>)
      requires Valid() && groups == IngestAll(fabric, obs)
      ensures HeldIds(|order|) == multiset(Ids(obs))
      ensures forall k :: k in tracks ==> exists i :: 0 <= i < |order| && order[i] == k
    {
      HeldIdsAreMembers(|order|);
      assert groups[..|order|] == groups;
      IdsPartition(fabric, obs);
      forall k | k in tracks
        ensures exists i :: 0 <= i < |order| && order[i] == k
      {
        assert order[place[k]] == k;
      }
    }

    constructor (fabric: Fabric)
      ensures Valid() && this.fabric == fabric && observations == [] && groups == []
    {
      this.fabric := fabric;
      observations, tracks, order := [], map[], [];
      groups, place := [], map[];
    }

    method AssociationDistance(o: Observation, track: Track) returns (d: Option<real>)
      ensures d == Distance(fabric, observations, o, track.State())
    {
      var near := fabric.haversine(o.lat, o.lon, track.lat, track.lon);
      if near <= fabric.radius {
        return Some(near);
      }
      for i := 0 to |observations|
        invariant FirstSeparation(fabric, observations, o, track.State(), 0) ==
                  FirstSeparation(fabric, observations, o, track.State(), i)
      {
        var other := observations[i];
        if other.id !in track.observationIds {
          continue;
        }
        if !fabric.kinematic(o, other) {
          continue;
        }
        var separation := fabric.separation(o, other);
        if separation.Some? {
          return separation;
        }
      }
      d := None;
    }

    /** The scan over all tracks: `states` are theirs, in dictionary order. */
    method ScanTracks(o: Observation, ghost states: seq<TrackState>) returns (best: Option<string>)
      requires |states| == |order|
      requires forall i :: 0 <= i < |order| ==> order[i] in tracks && states[i] == tracks[order[i]].State()
      ensures best == match Nearest(fabric, observations, states, o, |states|)
        case None => None
        case Some(k) => Some(order[k])
    {
      best := None;
      var bestDistance := 0.0;
      for i := 0 to |order|
        invariant match Nearest(fabric, observations, states, o, i)
          case None => best == None
          case Some(k) =>
            best == Some(order[k]) && Distance(fabric, observations, o, states[k]) == Some(bestDistance)
      {
        var d := AssociationDistance(o, tracks[order[i]]);
        if d.Some? && (best.None? || d.value < bestDistance) {
          best, bestDistance := Some(order[i]), d.value;
        }
      }
    }

    method FindNearby(o: Observation) returns (r: Option<string>)
      requires Valid()
      ensures r == match Target(fabric, observations, groups, o)
        case None => None
        case Some(k) => Some(order[k])
      ensures r.None? ==> Preferred(o) !in tracks
    {
      var preferred := if o.entityHint != "" then o.entityHint else o.sourceId;
      ghost var own := IndexOf(groups, preferred);
      assert own.Some? ==> Entry(own.value);
      if preferred in tracks {
        assert Entry(place[preferred]);
        return Some(preferred);
      }
      ghost var states := States(groups);
      forall i | 0 <= i < |order|
        ensures order[i] in tracks && states[i] == tracks[order[i]].State()
      {
        assert Entry(i);
      }
      r := ScanTracks(o, states);
    }

    method OpenTrack(o: Observation) returns (t: Track)
      requires Valid() && Preferred(o) !in tracks
      modifies this`tracks, this`order, this`groups, this`place
      ensures Valid() && groups == old(groups) + [Group(Preferred(o), [o])]
      ensures fresh(tracks.Values - old(tracks.Values))
      ensures t.trackId in tracks && tracks[t.trackId] == t
    {
      var id := Preferred(o);
      t := new Track(id, o);
      tracks := tracks[id := t];
      place := place[id := |order|];
      order := order + [id];
      groups := groups + [Group(id, [o])];
      forall i | 0 <= i < |order|
        ensures Entry(i)
      {
        assert i < |order| - 1 ==> old(Entry(i));
      }
    }

    method AbsorbInto(ghost k: nat, id: string, o: Observation) returns (t: Track)
      requires Valid() && k < |order| && order[k] == id
      modifies this`groups, tracks.Values
      ensures Valid() && groups == old(groups)[k := Group(id, old(groups)[k].members + [o])]
      ensures t.trackId in tracks && tracks[t.trackId] == t
    {
      assert Entry(k);
      FoldSnoc(id, groups[k].members, o);
      t := tracks[id];
      t.Absorb(o);
      groups := groups[k := Group(id, groups[k].members + [o])];
      forall i | 0 <= i < |order|
        ensures Entry(i)
      {
        assert old(Entry(i));
      }
    }

    /** The part of `ingest` after the observation is recorded. */
    method Correlate(o: Observation) returns (t: Track)
      requires Valid()
      modifies this`tracks, this`order, this`groups, this`place, tracks.Values
      ensures Valid() && fresh(tracks.Values - old(tracks.Values))
      ensures groups == Ingested(fabric, observations, old(groups), o)
      ensures t.trackId in tracks && tracks[t.trackId] == t
    {
      ghost var target := Target(fabric, observations, groups, o);
      IngestedAt(fabric, observations, groups, o, target);
      var existing := FindNearby(o);
      if existing.None? {
        t := OpenTrack(o);
      } else {
        assert Entry(target.value);
        t := AbsorbInto(target.value, existing.value, o);
      }
    }

    method Ingest(observation: Observation) returns (t: Track)
      requires Valid()
      modifies this, tracks.Values
      ensures Valid() && fresh(tracks.Values - old(tracks.Values))
      ensures observations == old(observations) + [EnsureDigest(fabric, observation)]
      ensures groups == Ingested(fabric, observations, old(groups), EnsureDigest(fabric, observation))
      ensures t.trackId in tracks && tracks[t.trackId] == t
    {
      var o := if observation.rawDigest != "" then observation
               else observation.(rawDigest := fabric.hash(observation.(rawDigest := "")));
      observations := observations + [o];
      t := Correlate(o);
    }

    /** `ingest_many` into an empty graph leaves the groups of `IngestAll`. */
    method IngestMany(obs: seq<Observation>) returns (out: seq<Track>)
      requires Valid() && observations == [] && groups == []
      modifies this, tracks.Values
      ensures Valid() && fresh(tracks.Values - old(tracks.Values))
      ensures observations == Digested(fabric, obs) && groups == IngestAll(fabric, obs) && |out| == |obs|
      ensures HeldIds(|order|) == multiset(Ids(obs))
    {
      out := [];
      for i := 0 to |obs|
        invariant Valid() && fresh(tracks.Values - old(tracks.Values))
        invariant observations == Digested(fabric, obs[..i]) && groups == IngestAll(fabric, obs[..i])
        invariant |out| == i
      {
        IngestOneMore(fabric, obs, i);
        var t := Ingest(obs[i]);
        out := out + [t];
      }
      assert obs[..|obs|] == obs;
      TracksHoldEveryId(obs);
    }
  }
}
