/** TileSetBitmaskConverter: turns the terrain peering bits of the tiles of a
    Godot `TileSet` into autotile bitmasks keyed by atlas position. */
module BitmaskConverter {
  import opened Common

  /** AutoTile.Bitmask.SurroundingDirection: the eight neighbours a bitmask records. */
  datatype SurroundingDirection = TopLeft | Top | TopRight | Right | BottomRight | Bottom | BottomLeft | Left

  /** Godot's TileSet.CellNeighbor. */
  datatype CellNeighbor =
    RightSide | RightCorner | BottomRightSide | BottomRightCorner | BottomSide | BottomCorner
    | BottomLeftSide | BottomLeftCorner | LeftSide | LeftCorner | TopLeftSide | TopLeftCorner
    | TopSide | TopCorner | TopRightSide | TopRightCorner

  /** `Bitmask.DEFAULT` and `Bitmask.UpdateBitmask`, whose bit layout belongs to
      the AutoTile library and is taken as given. */
  datatype BitmaskCodec = BitmaskCodec(defaultMask: byte, update: (byte, SurroundingDirection, bool) -> byte)

  /** The terrain part of a Godot `TileData`. A neighbour missing from
      `peeringBits` reads as -1, Godot's "no terrain". */
  datatype TileData = TileData(terrainSet: int, terrain: int, peeringBits: map<CellNeighbor, int>)

  /** A source of a Godot `TileSet`. An atlas source maps each atlas position to
      the tile data of its alternative tiles, by alternative id. */
  datatype TileSetSource =
    | TileSetAtlasSource(tiles: map<Vector2Int, map<int, TileData>>)
    | TileSetScenesCollectionSource

  /** The exceptions the conversion can raise: the cast of a source that is not
      an atlas, and reading a missing alternative tile (a null `TileData`). */
  datatype ConversionError = InvalidCastError | NullReferenceError

  function PeeringBit(tileData: TileData, cellNeighbor: CellNeighbor): int
  {
    if cellNeighbor in tileData.peeringBits then tileData.peeringBits[cellNeighbor] else -1
  }

  /** lib/src/AutoTileConfigBuilder.cs:125-126 */
  predicate TileDataHasBitmask(tileData: TileData, cellNeighbor: CellNeighbor): (r: bool)
    ensures r <==> cellNeighbor in tileData.peeringBits && tileData.peeringBits[cellNeighbor] >= 0
  {
    PeeringBit(tileData, cellNeighbor) > -1
  }

  /** The Godot neighbour of the same name as a bitmask direction. */
  function NeighborOf(direction: SurroundingDirection): CellNeighbor
  {
    match direction
    case TopLeft => TopLeftCorner
    case Top => TopSide
    case TopRight => TopRightCorner
    case Right => RightSide
    case BottomRight => BottomRightCorner
    case Bottom => BottomSide
    case BottomLeft => BottomLeftCorner
    case Left => LeftSide
  }

  /** The eight updates `CreateBitmaskFrom` makes, in order, each a direction
      with the presence test it is given (lib/src/AutoTileConfigBuilder.cs:113-120). */
  function Steps(tileData: TileData): seq<(SurroundingDirection, bool)>
  {
    [ (TopLeft, TileDataHasBitmask(tileData, TopLeftCorner)),
      (Top, TileDataHasBitmask(tileData, TopSide)),
      (TopRight, TileDataHasBitmask(tileData, TopRightCorner)),
      (Right, TileDataHasBitmask(tileData, RightSide)),
      (BottomRight, TileDataHasBitmask(tileData, BottomRightCorner)),
      (Bottom, TileDataHasBitmask(tileData, BottomSide)),
      (BottomLeft, TileDataHasBitmask(tileData, BottomLeftCorner)),
      (Left, TileDataHasBitmask(tileData, LeftSide)) ]
  }

  /** The mask obtained from `mask` by the updates `steps`, first to last. */
  function ApplySteps(codec: BitmaskCodec, mask: byte, steps: seq<(SurroundingDirection, bool)>): byte
    decreases |steps|
  {
    if steps == [] then mask else ApplySteps(codec, codec.update(mask, steps[0].0, steps[0].1), steps[1..])
  }

  /** The bitmask of a tile: `Bitmask.DEFAULT` updated by each step. */
  function MaskOf(codec: BitmaskCodec, tileData: TileData): byte
  {
    ApplySteps(codec, codec.defaultMask, Steps(tileData))
  }

  /** lib/src/AutoTileConfigBuilder.cs:109-123 */
  method CreateBitmaskFrom(codec: BitmaskCodec, tileData: TileData) returns (bitmask: byte)
    ensures bitmask == MaskOf(codec, tileData)
  {
    ghost var target := ApplySteps(codec, codec.defaultMask, Steps(tileData));
    ghost var rest := Steps(tileData);
    bitmask := codec.defaultMask;
    bitmask := codec.update(bitmask, TopLeft, TileDataHasBitmask(tileData, TopLeftCorner));
    rest := rest[1..];
    assert ApplySteps(codec, bitmask, rest) == target;
    bitmask := codec.update(bitmask, Top, TileDataHasBitmask(tileData, TopSide));
    rest := rest[1..];
    assert ApplySteps(codec, bitmask, rest) == target;
    bitmask := codec.update(bitmask, TopRight, TileDataHasBitmask(tileData, TopRightCorner));
    rest := rest[1..];
    assert ApplySteps(codec, bitmask, rest) == target;
    bitmask := codec.update(bitmask, Right, TileDataHasBitmask(tileData, RightSide));
    rest := rest[1..];
    assert ApplySteps(codec, bitmask, rest) == target;
    bitmask := codec.update(bitmask, BottomRight, TileDataHasBitmask(tileData, BottomRightCorner));
    rest := rest[1..];
    assert ApplySteps(codec, bitmask, rest) == target;
    bitmask := codec.update(bitmask, Bottom, TileDataHasBitmask(tileData, BottomSide));
    rest := rest[1..];
    assert ApplySteps(codec, bitmask, rest) == target;
    bitmask := codec.update(bitmask, BottomLeft, TileDataHasBitmask(tileData, BottomLeftCorner));
    rest := rest[1..];
    assert ApplySteps(codec, bitmask, rest) == target;
    bitmask := codec.update(bitmask, Left, TileDataHasBitmask(tileData, LeftSide));
    rest := rest[1..];
    assert ApplySteps(codec, bitmask, rest) == target;
    assert rest == [];
  }

  /** The directions of a list of updates, in order. */
  function StepDirections(steps: seq<(SurroundingDirection, bool)>): (r: seq<SurroundingDirection>)
    ensures |r| == |steps| && forall i :: 0 <= i < |steps| ==> r[i] == steps[i].0
    decreases |steps|
  {
    if steps == [] then [] else [steps[0].0] + StepDirections(steps[1..])
  }

  /** The directions of the updates, whatever the tile data. */
  lemma StepDirectionsInOrder(tileData: TileData)
    ensures StepDirections(Steps(tileData)) == [TopLeft, Top, TopRight, Right, BottomRight, Bottom, BottomLeft, Left]
  {
    var steps := Steps(tileData);
    var directions := StepDirections(steps);
    var expected := [TopLeft, Top, TopRight, Right, BottomRight, Bottom, BottomLeft, Left];
    assert |directions| == |expected| == 8;
    forall i | 0 <= i < 8 ensures directions[i] == expected[i] {
      assert directions[i] == steps[i].0;
    }
  }

  /** The eight directions in update order name each direction once. */
  lemma UpdateOrderCoversDirections(directions: seq<SurroundingDirection>)
    requires directions == [TopLeft, Top, TopRight, Right, BottomRight, Bottom, BottomLeft, Left]
    ensures Distinct(directions)
    ensures forall direction :: direction in directions
  {
    forall direction ensures direction in directions {
      match direction
      case TopLeft => assert directions[0] == direction;
      case Top => assert directions[1] == direction;
      case TopRight => assert directions[2] == direction;
      case Right => assert directions[3] == direction;
      case BottomRight => assert directions[4] == direction;
      case Bottom => assert directions[5] == direction;
      case BottomLeft => assert directions[6] == direction;
      case Left => assert directions[7] == direction;
    }
  }

  /** Each of the eight directions is updated exactly once. */
  lemma StepsCoverEachDirectionOnce(tileData: TileData)
    ensures |Steps(tileData)| == 8
    ensures Distinct(StepDirections(Steps(tileData)))
    ensures forall direction :: direction in StepDirections(Steps(tileData))
  {
    StepDirectionsInOrder(tileData);
    UpdateOrderCoversDirections(StepDirections(Steps(tileData)));
  }

  /** Each direction's update says "present" exactly when the peering bit of
      the Godot neighbour of the same name is above -1. */
  lemma StepsFollowPeeringBits(tileData: TileData)
    ensures forall i :: 0 <= i < |Steps(tileData)| ==>
      (Steps(tileData)[i].1 <==> PeeringBit(tileData, NeighborOf(Steps(tileData)[i].0)) > -1)
  {
  }

  // ---------------------------------------------------------------------------
  // The tile set conversion

  /** The requested terrain: both the terrain and the terrain set must agree. */
  predicate Matches(tileData: TileData, terrainSet: int, terrain: int)
  {
    terrain == tileData.terrain && terrainSet == tileData.terrainSet
  }

  /** `GetIdsMappedToSources` (lib/src/AutoTileConfigBuilder.cs:101-103): the
      sources in index order, each cast to an atlas; the cast fails on any other kind. */
  function CastToAtlasSources(tileSet: seq<TileSetSource>): (r: Result<seq<map<Vector2Int, map<int, TileData>>>, ConversionError>)
    ensures r.Success? <==> forall i :: 0 <= i < |tileSet| ==> tileSet[i].TileSetAtlasSource?
    ensures r.Failure? ==> r.error == InvalidCastError
    ensures r.Success? ==> |r.value| == |tileSet|
    ensures r.Success? ==> forall i :: 0 <= i < |tileSet| ==> r.value[i] == tileSet[i].tiles
    decreases |tileSet|
  {
    if tileSet == [] then Success([])
    else
      var front := CastToAtlasSources(tileSet[..|tileSet| - 1]);
      var last := tileSet[|tileSet| - 1];
      if front.Failure? then front
      else if !last.TileSetAtlasSource? then Failure(InvalidCastError)
      else Success(front.value + [last.tiles])
  }

  /** `GetAtlasPositionsMappedToTileData` (lib/src/AutoTileConfigBuilder.cs:105-107):
      every atlas position with the data of its alternative tile, or null
      (`None`) when the tile has no such alternative. */
  function PositionsToTileData(tiles: map<Vector2Int, map<int, TileData>>, altTileId: int): (r: map<Vector2Int, Option<TileData>>)
    ensures r.Keys == tiles.Keys
    ensures forall p :: p in r ==> (r[p].Some? <==> altTileId in tiles[p])
    ensures forall p :: p in r && r[p].Some? ==> r[p].value == tiles[p][altTileId]
  {
    map p | p in tiles :: if altTileId in tiles[p] then Some(tiles[p][altTileId]) else None
  }

  predicate HasAlternative(tiles: map<Vector2Int, map<int, TileData>>, altTileId: int)
  {
    forall p :: p in tiles ==> altTileId in tiles[p]
  }

  /** The atlas `tiles` has, at `position`, an alternative `altTileId` of the requested terrain. */
  predicate MatchesAt(tiles: map<Vector2Int, map<int, TileData>>, position: Vector2Int,
                      terrainSet: int, terrain: int, altTileId: int)
  {
    position in tiles && altTileId in tiles[position] && Matches(tiles[position][altTileId], terrainSet, terrain)
  }

  /** The masks one atlas source contributes: its matching tiles, by position. */
  function SourceBitmasks(codec: BitmaskCodec, tiles: map<Vector2Int, map<int, TileData>>,
                          terrainSet: int, terrain: int, altTileId: int): map<Vector2Int, byte>
  {
    map p | p in tiles && MatchesAt(tiles, p, terrainSet, terrain, altTileId) :: MaskOf(codec, tiles[p][altTileId])
  }

  /** The masks of all the sources, a later source replacing an earlier one's
      mask at the same position. */
  function BitmaskSetOf(codec: BitmaskCodec, sources: seq<map<Vector2Int, map<int, TileData>>>,
                        terrainSet: int, terrain: int, altTileId: int): map<Vector2Int, byte>
    decreases |sources|
  {
    if sources == [] then map[]
    else
      var n := |sources| - 1;
      BitmaskSetOf(codec, sources[..n], terrainSet, terrain, altTileId)
        + SourceBitmasks(codec, sources[n], terrainSet, terrain, altTileId)
  }

  /** What `GetBitmaskSetFromTileSet` yields: all sources are cast first, so a
      non-atlas source fails the cast before any tile is read; otherwise a tile
      without the alternative is a null dereference; otherwise the masks. */
  function Conversion(codec: BitmaskCodec, tileSet: seq<TileSetSource>, terrainSet: int, terrain: int, altTileId: int)
    : Result<map<Vector2Int, byte>, ConversionError>
  {
    var cast := CastToAtlasSources(tileSet);
    if cast.Failure? then Failure(InvalidCastError)
    else if exists i :: 0 <= i < |cast.value| && !HasAlternative(cast.value[i], altTileId) then Failure(NullReferenceError)
    else Success(BitmaskSetOf(codec, cast.value, terrainSet, terrain, altTileId))
  }

  /** The masks of the matching tiles among the positions `done` of one source. */
  function MatchingMasks(codec: BitmaskCodec, data: map<Vector2Int, Option<TileData>>, done: set<Vector2Int>,
                         terrainSet: int, terrain: int): map<Vector2Int, byte>
    requires forall p :: p in done ==> p in data && data[p].Some?
  {
    map p | p in done && Matches(data[p].value, terrainSet, terrain) :: MaskOf(codec, data[p].value)
  }

  lemma MatchingMasksAdd(codec: BitmaskCodec, data: map<Vector2Int, Option<TileData>>, done: set<Vector2Int>,
                         position: Vector2Int, terrainSet: int, terrain: int)
    requires forall p :: p in done ==> p in data && data[p].Some?
    requires position in data && data[position].Some?
    ensures MatchingMasks(codec, data, done + {position}, terrainSet, terrain) ==
      if Matches(data[position].value, terrainSet, terrain)
      then MatchingMasks(codec, data, done, terrainSet, terrain)[position := MaskOf(codec, data[position].value)]
      else MatchingMasks(codec, data, done, terrainSet, terrain)
  {
  }

  /** Once every tile has the alternative, the masks of all its positions are the source's masks. */
  lemma MatchingMasksOfSource(codec: BitmaskCodec, tiles: map<Vector2Int, map<int, TileData>>,
                              terrainSet: int, terrain: int, altTileId: int)
    requires HasAlternative(tiles, altTileId)
    ensures var data := PositionsToTileData(tiles, altTileId);
      MatchingMasks(codec, data, data.Keys, terrainSet, terrain) == SourceBitmasks(codec, tiles, terrainSet, terrain, altTileId)
  {
  }

  lemma UpdateOfUnion<K, V>(a: map<K, V>, b: map<K, V>, k: K, v: V)
    ensures (a + b)[k := v] == a + b[k := v]
  {
  }

  /** The inner loop of `GetBitmaskSetFromTileSet` (lib/src/AutoTileConfigBuilder.cs:94-96):
      the masks of the matching tiles of one source are written over
      `bitmaskSet`; a null tile data is dereferenced and fails. */
  method AddSourceBitmasks(codec: BitmaskCodec, bitmaskSet: map<Vector2Int, byte>,
                           tiles: map<Vector2Int, map<int, TileData>>, terrainSet: int, terrain: int, altTileId: int)
    returns (result: Result<map<Vector2Int, byte>, ConversionError>)
    ensures result.Failure? <==> !HasAlternative(tiles, altTileId)
    ensures result.Failure? ==> result.error == NullReferenceError
    ensures result.Success? ==> result.value == bitmaskSet + SourceBitmasks(codec, tiles, terrainSet, terrain, altTileId)
  {
    var data := PositionsToTileData(tiles, altTileId);
    var current := bitmaskSet;
    var remaining := data.Keys;
    ghost var done: set<Vector2Int> := {};
    while remaining != {}
      invariant done !! remaining && done + remaining == tiles.Keys
      invariant forall p :: p in done ==> data[p].Some?
      invariant current == bitmaskSet + MatchingMasks(codec, data, done, terrainSet, terrain)
      decreases remaining
    {
      var position :| position in remaining;
      if data[position].None? {
        assert altTileId !in tiles[position];
        return Failure(NullReferenceError);
      }
      var tileData := data[position].value;
      MatchingMasksAdd(codec, data, done, position, terrainSet, terrain);
      if terrain == tileData.terrain && terrainSet == tileData.terrainSet {
        var bitmask := CreateBitmaskFrom(codec, tileData);
        UpdateOfUnion(bitmaskSet, MatchingMasks(codec, data, done, terrainSet, terrain), position, bitmask);
        current := current[position := bitmask];
      }
      done := done + {position};
      remaining := remaining - {position};
    }
    MatchingMasksOfSource(codec, tiles, terrainSet, terrain, altTileId);
    return Success(current);
  }

  /** lib/src/AutoTileConfigBuilder.cs:88-99 */
  method GetBitmaskSetFromTileSet(codec: BitmaskCodec, tileSet: seq<TileSetSource>, terrainSet: int, terrain: int, altTileId: int)
    returns (result: Result<map<Vector2Int, byte>, ConversionError>)
    ensures result == Conversion(codec, tileSet, terrainSet, terrain, altTileId)
  {
    var cast := CastToAtlasSources(tileSet);
    if cast.Failure? {
      return Failure(InvalidCastError);
    }
    var sources := cast.value;
    var bitmaskSet: map<Vector2Int, byte> := map[];
    for i := 0 to |sources|
      invariant forall k :: 0 <= k < i ==> HasAlternative(sources[k], altTileId)
      invariant bitmaskSet == BitmaskSetOf(codec, sources[..i], terrainSet, terrain, altTileId)
    {
      var added := AddSourceBitmasks(codec, bitmaskSet, sources[i], terrainSet, terrain, altTileId);
      if added.Failure? {
        return Failure(NullReferenceError);
      }
      assert sources[..i + 1][..i] == sources[..i];
      bitmaskSet := added.value;
    }
    assert sources[..|sources|] == sources;
    return Success(bitmaskSet);
  }

  // ---------------------------------------------------------------------------
  // What the conversion promises

  /** The index of the last source in which `position` holds a matching tile. */
  function LastMatchingSource(sources: seq<map<Vector2Int, map<int, TileData>>>, position: Vector2Int,
                              terrainSet: int, terrain: int, altTileId: int): (r: Option<nat>)
    ensures r.None? <==> forall i :: 0 <= i < |sources| ==> !MatchesAt(sources[i], position, terrainSet, terrain, altTileId)
    ensures r.Some? ==> r.value < |sources| && MatchesAt(sources[r.value], position, terrainSet, terrain, altTileId)
    ensures r.Some? ==> forall j :: r.value < j < |sources| ==> !MatchesAt(sources[j], position, terrainSet, terrain, altTileId)
    decreases |sources|
  {
    if sources == [] then None
    else
      var n := |sources| - 1;
      if MatchesAt(sources[n], position, terrainSet, terrain, altTileId) then Some(n)
      else LastMatchingSource(sources[..n], position, terrainSet, terrain, altTileId)
  }

  /** A position is in the converted set exactly when some source has a
      matching tile there, and its mask is that of the last such tile. */
  lemma {:induction false} BitmaskSetOfLastMatchWins(codec: BitmaskCodec, sources: seq<map<Vector2Int, map<int, TileData>>>,
                                                     position: Vector2Int, terrainSet: int, terrain: int, altTileId: int)
    ensures var last := LastMatchingSource(sources, position, terrainSet, terrain, altTileId);
      && (position in BitmaskSetOf(codec, sources, terrainSet, terrain, altTileId) <==> last.Some?)
      && (last.Some? ==>
            BitmaskSetOf(codec, sources, terrainSet, terrain, altTileId)[position]
              == MaskOf(codec, sources[last.value][position][altTileId]))
    decreases |sources|
  {
    if sources != [] {
      var n := |sources| - 1;
      var front := sources[..n];
      assert forall i :: 0 <= i < |front| ==> front[i] == sources[i];
      BitmaskSetOfLastMatchWins(codec, front, position, terrainSet, terrain, altTileId);
    }
  }

  /** A tile is included only when both its terrain and its terrain set are the
      requested ones, and every such tile's position is included. */
  lemma ConversionIncludesExactlyMatchingTiles(codec: BitmaskCodec, tileSet: seq<TileSetSource>,
                                               terrainSet: int, terrain: int, altTileId: int, position: Vector2Int)
    requires Conversion(codec, tileSet, terrainSet, terrain, altTileId).Success?
    ensures position in Conversion(codec, tileSet, terrainSet, terrain, altTileId).value <==>
      exists i :: 0 <= i < |tileSet| && MatchesAt(tileSet[i].tiles, position, terrainSet, terrain, altTileId)
  {
    var sources := CastToAtlasSources(tileSet).value;
    BitmaskSetOfLastMatchWins(codec, sources, position, terrainSet, terrain, altTileId);
    var last := LastMatchingSource(sources, position, terrainSet, terrain, altTileId);
    if last.Some? {
      assert MatchesAt(tileSet[last.value].tiles, position, terrainSet, terrain, altTileId);
    }
  }

  /** The conversion fails exactly on a non-atlas source (a cast error) or,
      failing that, on a tile without the alternative (a null dereference). */
  lemma ConversionErrors(codec: BitmaskCodec, tileSet: seq<TileSetSource>, terrainSet: int, terrain: int, altTileId: int)
    ensures var r := Conversion(codec, tileSet, terrainSet, terrain, altTileId);
      && (r == Failure(InvalidCastError) <==> exists i :: 0 <= i < |tileSet| && !tileSet[i].TileSetAtlasSource?)
      && (r == Failure(NullReferenceError) <==>
            (forall i :: 0 <= i < |tileSet| ==> tileSet[i].TileSetAtlasSource?) &&
            exists i :: 0 <= i < |tileSet| && !HasAlternative(tileSet[i].tiles, altTileId))
  {
    var cast := CastToAtlasSources(tileSet);
    if cast.Success? {
      if exists i :: 0 <= i < |tileSet| && !HasAlternative(tileSet[i].tiles, altTileId) {
        var i :| 0 <= i < |tileSet| && !HasAlternative(tileSet[i].tiles, altTileId);
        assert !HasAlternative(cast.value[i], altTileId);
      }
    }
  }
}
