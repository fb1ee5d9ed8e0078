/** TileMapLoader: groups the loaded tiles by image path, creates one atlas
    source per path in a fresh tile set, records each tile's source id, and
    creates one tile-map layer per layer index up to the largest one. */
module Loader {
  import opened Common
  import Drawer

  /** What the tile loader yields per tile (AutoTile.TileResource). */
  datatype TileResource = TileResource(imagePath: string, layer: int, bitmaskMap: map<Vector2Int, byte>)

  /** One `(TileIdentificator, TileResource)` pair of the loaded dictionary. */
  datatype TileEntry = TileEntry(tileId: int, resource: TileResource)

  /** A `TileSetAtlasSource`: the image it shows (by path), its region size, and its tiles. */
  datatype AtlasSource = AtlasSource(texturePath: string, textureRegionSize: Vector2Int, tiles: set<Vector2Int>)

  /** Godot's CanvasItem.TextureFilterEnum. */
  datatype TextureFilter =
    ParentNode | Nearest | Linear | NearestWithMipmaps | LinearWithMipmaps
    | NearestWithMipmapsAnisotropic | LinearWithMipmapsAnisotropic

  /** A Godot `TileSet`: it hands out source ids from a counter. */
  class TileSet {
    var sources: map<int, AtlasSource>
    var nextSourceId: nat

    ghost predicate Valid()
      reads this
    {
      forall id :: id in sources ==> 0 <= id < nextSourceId
    }

    constructor ()
      ensures Valid() && sources == map[] && nextSourceId == 0
    {
      sources := map[];
      nextSourceId := 0;
    }

    /** `TileSet.AddSource`: registers the source under a fresh id. */
    method AddSource(source: AtlasSource) returns (sourceId: int)
      requires Valid()
      modifies this
      ensures Valid()
      ensures sourceId == old(nextSourceId) && sourceId !in old(sources)
      ensures sources == old(sources)[sourceId := source] && nextSourceId == sourceId + 1
    {
      sourceId := nextSourceId;
      sources := sources[sourceId := source];
      nextSourceId := nextSourceId + 1;
    }

    /** `TileSetAtlasSource.CreateTile`: a tile already present stays as it is. */
    method CreateTile(sourceId: int, position: Vector2Int)
      requires Valid() && sourceId in sources
      modifies this
      ensures Valid() && nextSourceId == old(nextSourceId)
      ensures sources == old(sources)[sourceId := old(sources[sourceId]).(tiles := old(sources[sourceId].tiles) + {position})]
    {
      sources := sources[sourceId := sources[sourceId].(tiles := sources[sourceId].tiles + {position})];
    }
  }

  /** One Godot `TileMapLayer` node: its tile set, its filter and its cells. */
  datatype TileMapLayer = TileMapLayer(tileSet: TileSet, textureFilter: TextureFilter, cells: Drawer.Layer)

  datatype GodotTileMap = GodotTileMap(tileMapLayers: seq<TileMapLayer>, tileIdToSourceId: seq<int>)

  // ---------------------------------------------------------------------------
  // The loaded tiles, seen as a dictionary keyed by tile id

  ghost predicate DistinctIds(tiles: seq<TileEntry>)
  {
    forall i, j :: 0 <= i < j < |tiles| ==> tiles[i].tileId != tiles[j].tileId
  }

  /** The tile ids index `TileIdToSourceId`, which has one slot per tile. */
  predicate IdsInRange(tiles: seq<TileEntry>)
  {
    forall i :: 0 <= i < |tiles| ==> 0 <= tiles[i].tileId < |tiles|
  }

  function PathOf(tiles: seq<TileEntry>, i: nat): string
    requires i < |tiles|
  {
    tiles[i].resource.imagePath
  }

  /** The image paths of the first `n` tiles. */
  function Paths(tiles: seq<TileEntry>, n: nat): set<string>
    requires n <= |tiles|
  {
    set i | 0 <= i < n :: PathOf(tiles, i)
  }

  /** The ids of those of the first `n` tiles whose image is `path`. */
  function IdsWithPath(tiles: seq<TileEntry>, n: nat, path: string): set<int>
    requires n <= |tiles|
  {
    set i | 0 <= i < n && PathOf(tiles, i) == path :: tiles[i].tileId
  }

  /** The union of the bitmask-map keys of the tiles whose image is `path`. */
  function CellsOfPath(tiles: seq<TileEntry>, path: string): set<Vector2Int>
    decreases |tiles|
  {
    if tiles == [] then {}
    else
      var n := |tiles| - 1;
      CellsOfPath(tiles[..n], path) + (if PathOf(tiles, n) == path then tiles[n].resource.bitmaskMap.Keys else {})
  }

  /** A position is a cell of `path` exactly when some tile of that image has it in its bitmask map. */
  lemma {:induction false} CellsOfPathMembers(tiles: seq<TileEntry>, path: string, p: Vector2Int)
    ensures p in CellsOfPath(tiles, path) <==>
      exists i :: 0 <= i < |tiles| && PathOf(tiles, i) == path && p in tiles[i].resource.bitmaskMap
    decreases |tiles|
  {
    if tiles != [] {
      var n := |tiles| - 1;
      var front := tiles[..n];
      CellsOfPathMembers(front, path, p);
      if p in CellsOfPath(front, path) {
        var i :| 0 <= i < |front| && PathOf(front, i) == path && p in front[i].resource.bitmaskMap;
        assert front[i] == tiles[i];
      }
      if exists i :: 0 <= i < |tiles| && PathOf(tiles, i) == path && p in tiles[i].resource.bitmaskMap {
        var i :| 0 <= i < |tiles| && PathOf(tiles, i) == path && p in tiles[i].resource.bitmaskMap;
        if i < n {
          assert front[i] == tiles[i];
        }
      }
    }
  }

  /** The union of the position sets of the given tile ids. */
  function UnionCells(positions: map<int, set<Vector2Int>>, ids: set<int>): set<Vector2Int>
  {
    set id, p | id in ids && id in positions && p in positions[id] :: p
  }

  /** Every tile lies in the group of its own path and in no other, so groups
      of different paths are disjoint. */
  lemma {:induction false} GroupsPartitionTiles(tiles: seq<TileEntry>)
    requires DistinctIds(tiles)
    ensures forall i :: 0 <= i < |tiles| ==> tiles[i].tileId in IdsWithPath(tiles, |tiles|, PathOf(tiles, i))
    ensures forall i, path :: 0 <= i < |tiles| && tiles[i].tileId in IdsWithPath(tiles, |tiles|, path) ==> path == PathOf(tiles, i)
    ensures forall a, b :: a != b ==> IdsWithPath(tiles, |tiles|, a) !! IdsWithPath(tiles, |tiles|, b)
  {
    forall i, path | 0 <= i < |tiles| && tiles[i].tileId in IdsWithPath(tiles, |tiles|, path)
      ensures path == PathOf(tiles, i)
    {
      var j :| 0 <= j < |tiles| && PathOf(tiles, j) == path && tiles[j].tileId == tiles[i].tileId;
      assert i == j;
    }
    forall a, b | a != b ensures IdsWithPath(tiles, |tiles|, a) !! IdsWithPath(tiles, |tiles|, b) {
      forall id | id in IdsWithPath(tiles, |tiles|, a) ensures id !in IdsWithPath(tiles, |tiles|, b) {
        var i :| 0 <= i < |tiles| && PathOf(tiles, i) == a && tiles[i].tileId == id;
      }
    }
  }

  lemma OnlyOwnGroup(tiles: seq<TileEntry>, i: nat, path: string)
    requires DistinctIds(tiles) && i < |tiles|
    requires tiles[i].tileId in IdsWithPath(tiles, |tiles|, path)
    ensures path == PathOf(tiles, i)
  {
    var j :| 0 <= j < |tiles| && PathOf(tiles, j) == path && tiles[j].tileId == tiles[i].tileId;
    assert i == j;
  }

  /** Uniting the positions group by group gives the cells of the path. */
  lemma UnionOfGroupIsCellsOfPath(tiles: seq<TileEntry>, positions: map<int, set<Vector2Int>>, path: string)
    requires DistinctIds(tiles)
    requires forall i :: 0 <= i < |tiles| ==>
      tiles[i].tileId in positions && positions[tiles[i].tileId] == tiles[i].resource.bitmaskMap.Keys
    ensures UnionCells(positions, IdsWithPath(tiles, |tiles|, path)) == CellsOfPath(tiles, path)
  {
    var ids := IdsWithPath(tiles, |tiles|, path);
    forall p | p in UnionCells(positions, ids) ensures p in CellsOfPath(tiles, path) {
      var id :| id in ids && id in positions && p in positions[id];
      var i :| 0 <= i < |tiles| && PathOf(tiles, i) == path && tiles[i].tileId == id;
      assert p in tiles[i].resource.bitmaskMap;
      CellsOfPathMembers(tiles, path, p);
    }
    forall p | p in CellsOfPath(tiles, path) ensures p in UnionCells(positions, ids) {
      CellsOfPathMembers(tiles, path, p);
      var i :| 0 <= i < |tiles| && PathOf(tiles, i) == path && p in tiles[i].resource.bitmaskMap;
      assert tiles[i].tileId in ids;
    }
  }

  /** Taking one more tile into account adds its path, and its id to its path's group. */
  lemma GroupsStep(tiles: seq<TileEntry>, i: nat)
    requires i < |tiles|
    ensures Paths(tiles, i + 1) == Paths(tiles, i) + {PathOf(tiles, i)}
    ensures forall path ::
      IdsWithPath(tiles, i + 1, path) == IdsWithPath(tiles, i, path) + (if path == PathOf(tiles, i) then {tiles[i].tileId} else {})
  {
    forall x | x in Paths(tiles, i + 1) ensures x in Paths(tiles, i) + {PathOf(tiles, i)} {
      var j :| 0 <= j < i + 1 && PathOf(tiles, j) == x;
      if j < i { assert x in Paths(tiles, i); }
    }
    forall path ensures IdsWithPath(tiles, i + 1, path) ==
      IdsWithPath(tiles, i, path) + (if path == PathOf(tiles, i) then {tiles[i].tileId} else {})
    {
      var extra := if path == PathOf(tiles, i) then {tiles[i].tileId} else {};
      forall id | id in IdsWithPath(tiles, i + 1, path) ensures id in IdsWithPath(tiles, i, path) + extra {
        var j :| 0 <= j < i + 1 && PathOf(tiles, j) == path && tiles[j].tileId == id;
        if j < i { assert id in IdsWithPath(tiles, i, path); }
      }
    }
  }

  lemma UnionCellsAdd(positions: map<int, set<Vector2Int>>, ids: set<int>, id: int)
    requires id in positions
    ensures UnionCells(positions, ids + {id}) == UnionCells(positions, ids) + positions[id]
  {
  }

  // ---------------------------------------------------------------------------
  // The loader's steps

  /** Groups the tile ids by image path (lib/src/TileMapLoader.cs:49-66). */
  method AssignPathsToTileIds(tiles: seq<TileEntry>) returns (pathToTileIds: Dict<string, set<int>>)
    ensures pathToTileIds.Valid()
    ensures pathToTileIds.entries.Keys == Paths(tiles, |tiles|)
    ensures forall path :: path in pathToTileIds.entries ==>
      pathToTileIds.entries[path] == IdsWithPath(tiles, |tiles|, path)
  {
    pathToTileIds := EmptyDict();
    for i := 0 to |tiles|
      invariant pathToTileIds.Valid()
      invariant pathToTileIds.entries.Keys == Paths(tiles, i)
      invariant forall path :: path in pathToTileIds.entries ==>
        pathToTileIds.entries[path] == IdsWithPath(tiles, i, path)
    {
      var imagePath := tiles[i].resource.imagePath;
      var ids := if imagePath in pathToTileIds.entries then pathToTileIds.entries[imagePath] else {};
      PutSpec(pathToTileIds, imagePath, ids + {tiles[i].tileId});
      pathToTileIds := pathToTileIds.Put(imagePath, ids + {tiles[i].tileId});
      GroupsStep(tiles, i);
    }
  }

  /** The largest layer of any tile, and 0 when there is none above 0
      (lib/src/TileMapLoader.cs:68-76). */
  method GetBiggestLayer(tiles: seq<TileEntry>) returns (biggestLayer: int)
    ensures biggestLayer >= 0
    ensures forall i :: 0 <= i < |tiles| ==> tiles[i].resource.layer <= biggestLayer
    ensures biggestLayer == 0 || exists i :: 0 <= i < |tiles| && tiles[i].resource.layer == biggestLayer
  {
    biggestLayer := 0;
    for i := 0 to |tiles|
      invariant biggestLayer >= 0
      invariant forall j :: 0 <= j < i ==> tiles[j].resource.layer <= biggestLayer
      invariant biggestLayer == 0 || exists j :: 0 <= j < i && tiles[j].resource.layer == biggestLayer
    {
      if tiles[i].resource.layer > biggestLayer {
        biggestLayer := tiles[i].resource.layer;
      }
    }
  }

  /** `tileIdtoAtlasPositions`: each tile id with the keys of its bitmask map
      (lib/src/TileMapLoader.cs:20-22). */
  method AtlasPositionsByTileId(tiles: seq<TileEntry>) returns (tileIdToAtlasPositions: map<int, set<Vector2Int>>)
    requires DistinctIds(tiles)
    ensures forall id :: id in tileIdToAtlasPositions <==> exists i :: 0 <= i < |tiles| && tiles[i].tileId == id
    ensures forall i :: 0 <= i < |tiles| ==>
      tiles[i].tileId in tileIdToAtlasPositions &&
      tileIdToAtlasPositions[tiles[i].tileId] == tiles[i].resource.bitmaskMap.Keys
  {
    tileIdToAtlasPositions := map[];
    for i := 0 to |tiles|
      invariant forall id :: id in tileIdToAtlasPositions <==> exists j :: 0 <= j < i && tiles[j].tileId == id
      invariant forall j :: 0 <= j < i ==>
        tiles[j].tileId in tileIdToAtlasPositions &&
        tileIdToAtlasPositions[tiles[j].tileId] == tiles[j].resource.bitmaskMap.Keys
    {
      tileIdToAtlasPositions := tileIdToAtlasPositions[tiles[i].tileId := tiles[i].resource.bitmaskMap.Keys];
    }
  }

  /** Creates one atlas source for the image, of `tileSize` tiles, and returns
      its id (lib/src/TileMapLoader.cs:78-89). The image itself is named by its path. */
  method AddSource(tileSet: TileSet, sourceImagePath: string, tileSize: Vector2Int) returns (sourceId: int)
    requires tileSet.Valid()
    modifies tileSet
    ensures tileSet.Valid()
    ensures sourceId == old(tileSet.nextSourceId) && sourceId !in old(tileSet.sources)
    ensures tileSet.sources == old(tileSet.sources)[sourceId := AtlasSource(sourceImagePath, tileSize, {})]
    ensures tileSet.nextSourceId == sourceId + 1
  {
    sourceId := tileSet.AddSource(AtlasSource(sourceImagePath, tileSize, {}));
  }

  /** Creates a tile at every position in the source (lib/src/TileMapLoader.cs:91-97). */
  method AssignTilesToSource(tileSet: TileSet, sourceId: int, atlasPositions: set<Vector2Int>)
    requires tileSet.Valid() && sourceId in tileSet.sources
    modifies tileSet
    ensures tileSet.Valid() && tileSet.nextSourceId == old(tileSet.nextSourceId)
    ensures tileSet.sources.Keys == old(tileSet.sources.Keys)
    ensures forall s :: s in tileSet.sources && s != sourceId ==> tileSet.sources[s] == old(tileSet.sources[s])
    ensures tileSet.sources[sourceId] ==
      old(tileSet.sources[sourceId]).(tiles := old(tileSet.sources[sourceId].tiles) + atlasPositions)
  {
    var remaining := atlasPositions;
    while remaining != {}
      invariant remaining <= atlasPositions
      invariant tileSet.Valid() && tileSet.nextSourceId == old(tileSet.nextSourceId)
      invariant tileSet.sources.Keys == old(tileSet.sources.Keys)
      invariant forall s :: s in tileSet.sources && s != sourceId ==> tileSet.sources[s] == old(tileSet.sources[s])
      invariant tileSet.sources[sourceId] ==
        old(tileSet.sources[sourceId]).(tiles := old(tileSet.sources[sourceId].tiles) + (atlasPositions - remaining))
      decreases remaining
    {
      var position :| position in remaining;
      tileSet.CreateTile(sourceId, position);
      remaining := remaining - {position};
    }
  }

  /** The inner loop of `Load`: every tile id of the group of `path` gets the
      group's source id, and its atlas positions become tiles of that source
      (lib/src/TileMapLoader.cs:29-33). */
  method AssignGroupToSource(tileSet: TileSet, tileIdToSourceId: array<int>, sourceId: int, ids: set<int>,
                             tileIdToAtlasPositions: map<int, set<Vector2Int>>,
                             ghost tiles: seq<TileEntry>, ghost path: string)
    requires tileSet.Valid() && sourceId in tileSet.sources
    requires DistinctIds(tiles) && ids == IdsWithPath(tiles, |tiles|, path)
    requires forall i :: 0 <= i < |tiles| ==>
      tiles[i].tileId in tileIdToAtlasPositions &&
      tileIdToAtlasPositions[tiles[i].tileId] == tiles[i].resource.bitmaskMap.Keys
    requires forall id :: id in ids ==> 0 <= id < tileIdToSourceId.Length
    modifies tileSet, tileIdToSourceId
    ensures tileSet.Valid() && tileSet.nextSourceId == old(tileSet.nextSourceId)
    ensures tileSet.sources.Keys == old(tileSet.sources.Keys)
    ensures forall s :: s in tileSet.sources && s != sourceId ==> tileSet.sources[s] == old(tileSet.sources[s])
    ensures tileSet.sources[sourceId].texturePath == old(tileSet.sources[sourceId].texturePath)
    ensures tileSet.sources[sourceId].textureRegionSize == old(tileSet.sources[sourceId].textureRegionSize)
    ensures tileSet.sources[sourceId].tiles == old(tileSet.sources[sourceId].tiles) + CellsOfPath(tiles, path)
    ensures forall id :: 0 <= id < tileIdToSourceId.Length ==>
      tileIdToSourceId[id] == if id in ids then sourceId else old(tileIdToSourceId[id])
  {
    var remaining := ids;
    while remaining != {}
      invariant remaining <= ids
      invariant tileSet.Valid() && tileSet.nextSourceId == old(tileSet.nextSourceId)
      invariant tileSet.sources.Keys == old(tileSet.sources.Keys)
      invariant forall s :: s in tileSet.sources && s != sourceId ==> tileSet.sources[s] == old(tileSet.sources[s])
      invariant tileSet.sources[sourceId] == old(tileSet.sources[sourceId]).(
        tiles := old(tileSet.sources[sourceId].tiles) + UnionCells(tileIdToAtlasPositions, ids - remaining))
      invariant forall id :: 0 <= id < tileIdToSourceId.Length ==>
        tileIdToSourceId[id] == if id in ids - remaining then sourceId else old(tileIdToSourceId[id])
      decreases remaining
    {
      var tileId: int :| tileId in remaining;
      assert tileId in tileIdToAtlasPositions;
      tileIdToSourceId[tileId] := sourceId;
      UnionCellsAdd(tileIdToAtlasPositions, ids - remaining, tileId);
      AssignTilesToSource(tileSet, sourceId, tileIdToAtlasPositions[tileId]);
      assert ids - (remaining - {tileId}) == (ids - remaining) + {tileId};
      remaining := remaining - {tileId};
    }
    UnionOfGroupIsCellsOfPath(tiles, tileIdToAtlasPositions, path);
  }

  /** The position of `path` in the enumeration order `paths`. */
  function IndexIn(paths: seq<string>, path: string): (r: nat)
    requires path in paths
    ensures r < |paths| && paths[r] == path
  {
    if paths[0] == path then 0 else 1 + IndexIn(paths[1..], path)
  }

  lemma IndexInDistinct(paths: seq<string>, j: nat)
    requires Distinct(paths) && j < |paths|
    ensures IndexIn(paths, paths[j]) == j
  {
  }

  /** The first `g` sources of the enumeration `paths`: source `j` shows image
      `paths[j]` and holds the cells of that image. */
  ghost predicate SourcesUpTo(sources: map<int, AtlasSource>, tiles: seq<TileEntry>, paths: seq<string>,
                              tileSize: Vector2Int, g: nat)
    requires g <= |paths|
  {
    forall j :: 0 <= j < g ==>
      j in sources && sources[j] == AtlasSource(paths[j], tileSize, CellsOfPath(tiles, paths[j]))
  }

  /** Every tile of one of the first `g` images of `paths` has the position of
      that image as its source id. */
  ghost predicate TableUpTo(table: seq<int>, tiles: seq<TileEntry>, paths: seq<string>, g: nat)
    requires IdsInRange(tiles) && |table| == |tiles|
    requires forall i :: 0 <= i < |tiles| ==> PathOf(tiles, i) in paths
  {
    forall i :: 0 <= i < |tiles| && IndexIn(paths, PathOf(tiles, i)) < g ==>
      table[tiles[i].tileId] == IndexIn(paths, PathOf(tiles, i))
  }

  /** One turn of the loop over the path groups: the source of image `paths[g]`
      is created under id `g`, filled, and given to the tiles of that image. */
  method AddGroupSource(tileSet: TileSet, tileIdToSourceId: array<int>, tiles: seq<TileEntry>, tileSize: Vector2Int,
                        paths: seq<string>, g: nat, ids: set<int>, tileIdToAtlasPositions: map<int, set<Vector2Int>>)
    requires DistinctIds(tiles) && IdsInRange(tiles) && Distinct(paths) && g < |paths|
    requires tileIdToSourceId.Length == |tiles|
    requires forall i :: 0 <= i < |tiles| ==> PathOf(tiles, i) in paths
    requires ids == IdsWithPath(tiles, |tiles|, paths[g])
    requires forall i :: 0 <= i < |tiles| ==>
      tiles[i].tileId in tileIdToAtlasPositions &&
      tileIdToAtlasPositions[tiles[i].tileId] == tiles[i].resource.bitmaskMap.Keys
    requires tileSet.Valid() && tileSet.nextSourceId == g
    requires SourcesUpTo(tileSet.sources, tiles, paths, tileSize, g)
    requires TableUpTo(tileIdToSourceId[..], tiles, paths, g)
    modifies tileSet, tileIdToSourceId
    ensures tileSet.Valid() && tileSet.nextSourceId == g + 1
    ensures SourcesUpTo(tileSet.sources, tiles, paths, tileSize, g + 1)
    ensures TableUpTo(tileIdToSourceId[..], tiles, paths, g + 1)
  {
    var sourceId := AddSource(tileSet, paths[g], tileSize);
    forall id | id in ids ensures 0 <= id < tileIdToSourceId.Length {
      var i :| 0 <= i < |tiles| && PathOf(tiles, i) == paths[g] && tiles[i].tileId == id;
    }
    AssignGroupToSource(tileSet, tileIdToSourceId, sourceId, ids, tileIdToAtlasPositions, tiles, paths[g]);
    assert {} + CellsOfPath(tiles, paths[g]) == CellsOfPath(tiles, paths[g]);
    IndexInDistinct(paths, g);
    forall i | 0 <= i < |tiles| && IndexIn(paths, PathOf(tiles, i)) < g + 1
      ensures tileIdToSourceId[tiles[i].tileId] == IndexIn(paths, PathOf(tiles, i))
    {
      if tiles[i].tileId in ids {
        OnlyOwnGroup(tiles, i, paths[g]);
      }
    }
  }

  /** The loop over the path groups: one new source per path, in the
      dictionary's enumeration order (lib/src/TileMapLoader.cs:24-34). */
  method CreateSources(tiles: seq<TileEntry>, tileSize: Vector2Int, pathToTileIds: Dict<string, set<int>>,
                       tileIdToAtlasPositions: map<int, set<Vector2Int>>)
    returns (tileSet: TileSet, tileIdToSourceId: array<int>)
    requires DistinctIds(tiles) && IdsInRange(tiles)
    requires pathToTileIds.Valid() && pathToTileIds.entries.Keys == Paths(tiles, |tiles|)
    requires forall path :: path in pathToTileIds.entries ==>
      pathToTileIds.entries[path] == IdsWithPath(tiles, |tiles|, path)
    requires forall i :: 0 <= i < |tiles| ==>
      tiles[i].tileId in tileIdToAtlasPositions &&
      tileIdToAtlasPositions[tiles[i].tileId] == tiles[i].resource.bitmaskMap.Keys
    ensures fresh(tileSet) && fresh(tileIdToSourceId) && tileSet.Valid()
    ensures tileIdToSourceId.Length == |tiles|
    ensures forall i :: 0 <= i < |tiles| ==> PathOf(tiles, i) in pathToTileIds.keys
    ensures forall s :: s in tileSet.sources <==> 0 <= s < |pathToTileIds.keys|
    ensures SourcesUpTo(tileSet.sources, tiles, pathToTileIds.keys, tileSize, |pathToTileIds.keys|)
    ensures TableUpTo(tileIdToSourceId[..], tiles, pathToTileIds.keys, |pathToTileIds.keys|)
  {
    tileSet := new TileSet();
    tileIdToSourceId := new int[|tiles|];
    var paths := pathToTileIds.keys;
    forall i | 0 <= i < |tiles| ensures PathOf(tiles, i) in paths {
      assert PathOf(tiles, i) in Paths(tiles, |tiles|);
    }
    for g := 0 to |paths|
      invariant tileSet.Valid() && tileSet.nextSourceId == g
      invariant SourcesUpTo(tileSet.sources, tiles, paths, tileSize, g)
      invariant TableUpTo(tileIdToSourceId[..], tiles, paths, g)
    {
      AddGroupSource(tileSet, tileIdToSourceId, tiles, tileSize, paths, g, pathToTileIds.entries[paths[g]],
                     tileIdToAtlasPositions);
    }
  }

  /** The layers of `Load` (lib/src/TileMapLoader.cs:36-44): one per index from
      0 to `biggestLayer`, each sharing the tile set, filtered `Nearest`, and empty. */
  method CreateLayers(tileSet: TileSet, biggestLayer: nat) returns (tileMapLayers: seq<TileMapLayer>)
    ensures |tileMapLayers| == biggestLayer + 1
    ensures forall l :: 0 <= l < |tileMapLayers| ==> tileMapLayers[l] == TileMapLayer(tileSet, Nearest, map[])
  {
    tileMapLayers := [];
    for i := 0 to biggestLayer + 1
      invariant |tileMapLayers| == i
      invariant forall l :: 0 <= l < i ==> tileMapLayers[l] == TileMapLayer(tileSet, Nearest, map[])
    {
      tileMapLayers := tileMapLayers + [TileMapLayer(tileSet, Nearest, map[])];
    }
  }

  /** Builds the tile set and the layers for the loaded tiles
      (lib/src/TileMapLoader.cs:14-47). */
  method Load(tiles: seq<TileEntry>, tileSize: Vector2Int) returns (tileSet: TileSet, godotTileMap: GodotTileMap)
    requires DistinctIds(tiles) && IdsInRange(tiles)
    ensures fresh(tileSet) && tileSet.Valid()
    // one layer per index from 0 to the largest layer, all sharing the tile set
    ensures |godotTileMap.tileMapLayers| >= 1
    ensures forall i :: 0 <= i < |tiles| ==> tiles[i].resource.layer < |godotTileMap.tileMapLayers|
    ensures |godotTileMap.tileMapLayers| == 1 ||
      exists i :: 0 <= i < |tiles| && tiles[i].resource.layer == |godotTileMap.tileMapLayers| - 1
    ensures forall l :: 0 <= l < |godotTileMap.tileMapLayers| ==>
      godotTileMap.tileMapLayers[l] == TileMapLayer(tileSet, Nearest, map[])
    // each tile's source shows the tile's image and holds the cells of every tile of that image
    ensures |godotTileMap.tileIdToSourceId| == |tiles|
    ensures SourceOfEachTile(tiles, tileSize, tileSet.sources, godotTileMap.tileIdToSourceId)
    // tiles share a source exactly when they share an image
    ensures SameSourceIffSameImage(tiles, godotTileMap.tileIdToSourceId)
    // no source without a tile, and no two sources for one image
    ensures EverySourceUsed(tiles, tileSet.sources, godotTileMap.tileIdToSourceId)
    ensures OneSourcePerImage(tileSet.sources)
  {
    var pathToTileIds := AssignPathsToTileIds(tiles);
    var biggestLayer := GetBiggestLayer(tiles);
    var tileIdToAtlasPositions := AtlasPositionsByTileId(tiles);
    var tileIdToSourceId;
    tileSet, tileIdToSourceId := CreateSources(tiles, tileSize, pathToTileIds, tileIdToAtlasPositions);
    var tileMapLayers := CreateLayers(tileSet, biggestLayer);
    godotTileMap := GodotTileMap(tileMapLayers, tileIdToSourceId[..]);
    var paths, sources, table := pathToTileIds.keys, tileSet.sources, godotTileMap.tileIdToSourceId;
    forall j | 0 <= j < |paths| ensures paths[j] in Paths(tiles, |tiles|) {
      assert paths[j] in pathToTileIds.entries;
    }
    SourceOfEachTileHolds(tiles, paths, sources, table, tileSize);
    SameSourceIffSameImageHolds(tiles, paths, table);
    EverySourceUsedHolds(tiles, paths, sources, table);
    OneSourcePerImageHolds(tiles, paths, sources, tileSize);
  }

  /** The source of each tile shows the tile's image and holds the cells of every tile of that image. */
  ghost predicate SourceOfEachTile(tiles: seq<TileEntry>, tileSize: Vector2Int, sources: map<int, AtlasSource>, table: seq<int>)
    requires IdsInRange(tiles) && |table| == |tiles|
  {
    forall i :: 0 <= i < |tiles| ==>
      table[tiles[i].tileId] in sources &&
      sources[table[tiles[i].tileId]] == AtlasSource(PathOf(tiles, i), tileSize, CellsOfPath(tiles, PathOf(tiles, i)))
  }

  /** Two tiles have the same source id exactly when they have the same image. */
  ghost predicate SameSourceIffSameImage(tiles: seq<TileEntry>, table: seq<int>)
    requires IdsInRange(tiles) && |table| == |tiles|
  {
    forall i, j :: 0 <= i < |tiles| && 0 <= j < |tiles| ==>
      (table[tiles[i].tileId] == table[tiles[j].tileId] <==> PathOf(tiles, i) == PathOf(tiles, j))
  }

  /** Every source is the source of some tile. */
  ghost predicate EverySourceUsed(tiles: seq<TileEntry>, sources: map<int, AtlasSource>, table: seq<int>)
    requires IdsInRange(tiles) && |table| == |tiles|
  {
    forall s :: s in sources ==> exists i :: 0 <= i < |tiles| && table[tiles[i].tileId] == s
  }

  /** No two sources show the same image. */
  ghost predicate OneSourcePerImage(sources: map<int, AtlasSource>)
  {
    forall s, t :: s in sources && t in sources && s != t ==> sources[s].texturePath != sources[t].texturePath
  }

  lemma SourceOfEachTileHolds(tiles: seq<TileEntry>, paths: seq<string>, sources: map<int, AtlasSource>,
                              table: seq<int>, tileSize: Vector2Int)
    requires IdsInRange(tiles) && |table| == |tiles|
    requires forall i :: 0 <= i < |tiles| ==> PathOf(tiles, i) in paths
    requires SourcesUpTo(sources, tiles, paths, tileSize, |paths|)
    requires TableUpTo(table, tiles, paths, |paths|)
    ensures SourceOfEachTile(tiles, tileSize, sources, table)
  {
  }

  lemma SameSourceIffSameImageHolds(tiles: seq<TileEntry>, paths: seq<string>, table: seq<int>)
    requires IdsInRange(tiles) && |table| == |tiles|
    requires forall i :: 0 <= i < |tiles| ==> PathOf(tiles, i) in paths
    requires TableUpTo(table, tiles, paths, |paths|)
    ensures SameSourceIffSameImage(tiles, table)
  {
  }

  lemma EverySourceUsedHolds(tiles: seq<TileEntry>, paths: seq<string>, sources: map<int, AtlasSource>, table: seq<int>)
    requires IdsInRange(tiles) && |table| == |tiles| && Distinct(paths)
    requires forall j :: 0 <= j < |paths| ==> paths[j] in Paths(tiles, |tiles|)
    requires forall s :: s in sources ==> 0 <= s < |paths|
    requires forall i :: 0 <= i < |tiles| ==> PathOf(tiles, i) in paths
    requires TableUpTo(table, tiles, paths, |paths|)
    ensures EverySourceUsed(tiles, sources, table)
  {
    forall s | s in sources ensures exists i :: 0 <= i < |tiles| && table[tiles[i].tileId] == s {
      assert paths[s] in Paths(tiles, |tiles|);
      var i :| 0 <= i < |tiles| && PathOf(tiles, i) == paths[s];
      IndexInDistinct(paths, s);
    }
  }

  lemma OneSourcePerImageHolds(tiles: seq<TileEntry>, paths: seq<string>, sources: map<int, AtlasSource>, tileSize: Vector2Int)
    requires Distinct(paths)
    requires forall s :: s in sources ==> 0 <= s < |paths|
    requires SourcesUpTo(sources, tiles, paths, tileSize, |paths|)
    ensures OneSourcePerImage(sources)
  {
  }
}
