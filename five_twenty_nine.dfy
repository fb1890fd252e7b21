// The tile-unlock system: on post-deserialization it applies the selected
// unlock mode to the host's map tiles, unlock features and milestones. The
// host's entity store is abstracted to three sequences of records, in the
// order the host's queries return them.
module FiveTwentyNine {
  import opened Settings

  datatype Option<T> = None | Some(value: T)

  /** Why the host deserialized: only a new game lets the non-unlock-all modes act. */
  datatype Purpose = NewGame | LoadGame | OtherPurpose

  /** A map-tile entity; `native` is whether it still carries the Native (not yet owned) tag. */
  datatype MapTile = MapTile(entity: int, native: bool)

  /** A feature entity: the name of the prefab it resolves to (None when the
      prefab lookup yields nothing), and its Locked and UnlockRequirement tags. */
  datatype Feature = Feature(entity: int, prefabName: Option<string>, locked: bool, unlockRequirement: bool)

  /** A milestone entity's MilestoneData; only m_MapTiles is modelled. */
  datatype Milestone = Milestone(mapTiles: int)

  datatype EntityStore = EntityStore(tiles: seq<MapTile>, features: seq<Feature>, milestones: seq<Milestone>)

  const MapTilesFeatureName: string := "Map Tiles"

  /** m_MapTiles of the milestone created for the extra-tiles-at-start mode. */
  const StartMapTiles: int := 88

  /** The milestone table as data: old unlockable-tile count to new count. */
  const MilestoneTable: map<int, int> :=
    map[3 := 4, 4 := 5, 5 := 7, 6 := 7, 7 := 8, 8 := 10, 9 := 11, 10 := 12, 12 := 14, 15 := 18,
        18 := 22, 21 := 25, 24 := 29, 28 := 34, 32 := 38, 36 := 43, 41 := 49, 46 := 55, 51 := 61,
        56 := 68]

  /** UpdateMilestone: the switch over m_MapTiles; counts without a case pass through. */
  function UpdateMilestone(milestone: Milestone): (r: Milestone)
    ensures milestone.mapTiles in MilestoneTable ==> r.mapTiles == MilestoneTable[milestone.mapTiles]
    ensures milestone.mapTiles !in MilestoneTable ==> r == milestone
    ensures r.mapTiles >= milestone.mapTiles
    ensures r.mapTiles > milestone.mapTiles <==> milestone.mapTiles in MilestoneTable
  {
    var n := match milestone.mapTiles
      case 3 => 4
      case 4 => 5
      case 5 => 7
      case 6 => 7
      case 7 => 8
      case 8 => 10
      case 9 => 11
      case 10 => 12
      case 12 => 14
      case 15 => 18
      case 18 => 22
      case 21 => 25
      case 24 => 29
      case 28 => 34
      case 32 => 38
      case 36 => 43
      case 41 => 49
      case 46 => 55
      case 51 => 61
      case 56 => 68
      case _ => milestone.mapTiles;
    milestone.(mapTiles := n)
  }

  /** Applying the table twice is not the same as applying it once. */
  lemma UpdateMilestoneNotIdempotent()
    ensures exists m: Milestone :: UpdateMilestone(UpdateMilestone(m)) != UpdateMilestone(m)
  {
    var m := Milestone(3);
    assert UpdateMilestone(m) == Milestone(4);
    assert UpdateMilestone(UpdateMilestone(m)) == Milestone(5);
  }

  /** The feature query selects features that still carry Locked. */
  predicate InFeatureQuery(f: Feature) {
    f.locked
  }

  predicate IsMapTilesFeature(f: Feature) {
    InFeatureQuery(f) && f.prefabName == Some(MapTilesFeatureName)
  }

  /** The index of the first locked "Map Tiles" feature, if any. */
  function FirstMapTilesFeature(fs: seq<Feature>): (r: Option<nat>)
    decreases |fs|
    ensures r.Some? ==> r.value < |fs| && IsMapTilesFeature(fs[r.value])
    ensures r.Some? ==> forall j :: 0 <= j < r.value ==> !IsMapTilesFeature(fs[j])
    ensures r.None? <==> forall j :: 0 <= j < |fs| ==> !IsMapTilesFeature(fs[j])
  {
    if fs == [] then None
    else if IsMapTilesFeature(fs[0]) then Some(0)
    else match FirstMapTilesFeature(fs[1..])
      case None => None
      case Some(k) => Some(k + 1)
  }

  function Unlocked(f: Feature): Feature {
    f.(locked := false, unlockRequirement := false)
  }

  function WithoutNative(tiles: seq<MapTile>): seq<MapTile> {
    seq(|tiles|, i requires 0 <= i < |tiles| => tiles[i].(native := false))
  }

  function Updated(milestones: seq<Milestone>): seq<Milestone> {
    seq(|milestones|, i requires 0 <= i < |milestones| => UpdateMilestone(milestones[i]))
  }

  /** PostDeserialize on the abstract entity store, branch by branch. */
  function PostDeserialized(w: EntityStore, m: Modes, purpose: Purpose): (r: EntityStore)
    // Unlock all: every tile loses Native whatever the purpose; nothing else changes.
    ensures m.unlockAll ==>
      && |r.tiles| == |w.tiles|
      && (forall i :: 0 <= i < |w.tiles| ==> r.tiles[i] == w.tiles[i].(native := false))
      && r.features == w.features && r.milestones == w.milestones
    // Every other mode needs a new game.
    ensures !m.unlockAll && purpose != NewGame ==> r == w
    // Extra tiles at start: the first locked "Map Tiles" feature is unlocked and
    // one 88-tile milestone is appended; without such a feature nothing changes.
    ensures !m.unlockAll && purpose == NewGame && m.extraAtStart ==>
      match FirstMapTilesFeature(w.features)
      case Some(k) =>
        && r.tiles == w.tiles
        && |r.features| == |w.features|
        && !r.features[k].locked && !r.features[k].unlockRequirement
        && r.features[k].entity == w.features[k].entity && r.features[k].prefabName == w.features[k].prefabName
        && (forall j :: 0 <= j < |w.features| && j != k ==> r.features[j] == w.features[j])
        && r.milestones == w.milestones + [Milestone(StartMapTiles)]
      case None => r == w
    // Assign to milestones (only when extra-at-start is off): every milestone goes
    // through the table; tiles, features and the number of milestones are kept.
    ensures !m.unlockAll && purpose == NewGame && !m.extraAtStart && m.milestones ==>
      && r.tiles == w.tiles && r.features == w.features
      && |r.milestones| == |w.milestones|
      && (forall i :: 0 <= i < |w.milestones| ==> r.milestones[i] == UpdateMilestone(w.milestones[i]))
    ensures !m.unlockAll && purpose == NewGame && !m.extraAtStart && !m.milestones ==> r == w
  {
    if m.unlockAll then
      w.(tiles := WithoutNative(w.tiles))
    else if purpose != NewGame then
      w
    else if m.extraAtStart then
      match FirstMapTilesFeature(w.features)
      case Some(k) =>
        w.(features := w.features[k := Unlocked(w.features[k])],
           milestones := w.milestones + [Milestone(StartMapTiles)])
      case None => w
    else if m.milestones then
      w.(milestones := Updated(w.milestones))
    else
      w
  }

  /** Whatever the mode, PostDeserialize only ever grants: no tile regains
      Native, no feature becomes locked, no milestone is removed and no
      milestone's tile count goes down. */
  lemma PostDeserializeOnlyGrants(w: EntityStore, m: Modes, purpose: Purpose)
    ensures var r := PostDeserialized(w, m, purpose);
      && |r.tiles| == |w.tiles|
      && (forall i :: 0 <= i < |w.tiles| ==> r.tiles[i].entity == w.tiles[i].entity && (r.tiles[i].native ==> w.tiles[i].native))
      && |r.features| == |w.features|
      && (forall j :: 0 <= j < |w.features| ==> r.features[j].entity == w.features[j].entity && (r.features[j].locked ==> w.features[j].locked))
      && |w.milestones| <= |r.milestones| <= |w.milestones| + 1
      && (forall i :: 0 <= i < |w.milestones| ==> r.milestones[i].mapTiles >= w.milestones[i].mapTiles)
  {
    var r := PostDeserialized(w, m, purpose);
    if !m.unlockAll && purpose == NewGame && m.extraAtStart {
      match FirstMapTilesFeature(w.features)
      case Some(k) =>
        assert forall i :: 0 <= i < |w.milestones| ==> r.milestones[i] == w.milestones[i];
      case None =>
    }
  }

  /** With unlock-all selected, running the system again changes nothing. */
  lemma UnlockAllIdempotent(w: EntityStore, m: Modes, purpose: Purpose)
    requires m.unlockAll
    ensures PostDeserialized(PostDeserialized(w, m, purpose), m, purpose) == PostDeserialized(w, m, purpose)
  {
    var r := PostDeserialized(w, m, purpose);
    var rr := PostDeserialized(r, m, purpose);
    assert rr.tiles == r.tiles;
  }

  /** With extra-tiles-at-start selected and a single locked "Map Tiles"
      feature, a second new-game run finds no locked feature to unlock and
      changes nothing: the 88-tile milestone is not added twice. */
  lemma ExtraAtStartSecondRunIsNoOp(w: EntityStore, m: Modes)
    requires !m.unlockAll && m.extraAtStart
    requires forall i, j :: 0 <= i < j < |w.features| ==> !(IsMapTilesFeature(w.features[i]) && IsMapTilesFeature(w.features[j]))
    ensures var r := PostDeserialized(w, m, NewGame);
      PostDeserialized(r, m, NewGame) == r
  {
    var r := PostDeserialized(w, m, NewGame);
    match FirstMapTilesFeature(w.features)
    case None =>
    case Some(k) =>
      forall j | 0 <= j < |r.features|
        ensures !IsMapTilesFeature(r.features[j])
      {
        if j < k {
          assert r.features[j] == w.features[j];
        } else if j > k {
          assert r.features[j] == w.features[j];
          assert !(IsMapTilesFeature(w.features[k]) && IsMapTilesFeature(w.features[j]));
        }
      }
      assert FirstMapTilesFeature(r.features).None?;
  }

  /** Assigning to milestones is not idempotent: a second run moves 4 on to 5. */
  lemma AssignToMilestonesNotIdempotent(m: Modes)
    requires !m.unlockAll && !m.extraAtStart && m.milestones
    ensures exists w: EntityStore ::
      PostDeserialized(PostDeserialized(w, m, NewGame), m, NewGame) != PostDeserialized(w, m, NewGame)
  {
    var w := EntityStore([], [], [Milestone(3)]);
    var r := PostDeserialized(w, m, NewGame);
    assert r.milestones[0] == Milestone(4);
    var rr := PostDeserialized(r, m, NewGame);
    assert rr.milestones[0] == Milestone(5);
  }

  /** The system, holding the view of the entity store its queries give. */
  class FiveTwentyNineSystem {
    var tiles: seq<MapTile>
    var features: seq<Feature>
    var milestones: seq<Milestone>

    function Store(): EntityStore
      reads this
    {
      EntityStore(tiles, features, milestones)
    }

    /** Called by the host after deserialization; `settings` is the mod's
        active settings, passed in instead of read from a global. */
    method PostDeserialize(settings: ModSettings, purpose: Purpose)
      modifies this
      ensures Store() == PostDeserialized(old(Store()), settings.Value(), purpose)
    {
      if settings.unlockAll {
        // Remove Native from every map tile.
        var i := 0;
        while i < |tiles|
          invariant 0 <= i <= |tiles| == |old(tiles)|
          invariant forall j :: 0 <= j < i ==> tiles[j] == old(tiles)[j].(native := false)
          invariant forall j :: i <= j < |tiles| ==> tiles[j] == old(tiles)[j]
          invariant features == old(features) && milestones == old(milestones)
        {
          tiles := tiles[i := tiles[i].(native := false)];
          i := i + 1;
        }
        assert tiles == WithoutNative(old(tiles));
        return;
      }

      if purpose != NewGame {
        return;
      }

      if settings.extraAtStart {
        // Visit the locked features in query order, looking for "Map Tiles".
        var i := 0;
        while i < |features|
          invariant 0 <= i <= |features|
          invariant Store() == old(Store())
          invariant forall j :: 0 <= j < i ==> !IsMapTilesFeature(features[j])
        {
          var feature := features[i];
          if InFeatureQuery(feature) && feature.prefabName == Some(MapTilesFeatureName) {
            features := features[i := feature.(locked := false, unlockRequirement := false)];
            milestones := milestones + [Milestone(StartMapTiles)];
            assert FirstMapTilesFeature(old(features)) == Some(i);
            return;
          }
          i := i + 1;
        }
        // No such feature: the source logs an error and changes nothing.
      } else if settings.milestones {
        var i := 0;
        while i < |milestones|
          invariant 0 <= i <= |milestones| == |old(milestones)|
          invariant forall j :: 0 <= j < i ==> milestones[j] == UpdateMilestone(old(milestones)[j])
          invariant forall j :: i <= j < |milestones| ==> milestones[j] == old(milestones)[j]
          invariant tiles == old(tiles) && features == old(features)
        {
          milestones := milestones[i := UpdateMilestone(milestones[i])];
          i := i + 1;
        }
        assert milestones == Updated(old(milestones));
      }
    }
  }
}
