# godot-autotile library glue, modelled in Dafny

This project models the C# code that connects the AutoTile library to Godot's tile maps. It has four modules:

- **Loader** (`lib/src/TileMapLoader.cs`): groups the loaded tiles by image path. It creates one atlas source per path in a fresh `TileSet`, fills in the `tileId → sourceId` table, and creates `biggestLayer + 1` tile-map layers that all share the tile set. `TileSet` is a class: a counter that hands out fresh source ids, plus a map from source id to atlas source.
- **Drawer** (`lib/src/TileMapDrawer.cs`): `DrawTiles` checks the layer, then queues its set/erase loop. `Clear` queues the emptying of every layer. `TileMapDrawer` is a class whose layers are `seq<map<Vector2Int, Cell>>`. The closures handed to `CallDeferred` sit in a FIFO queue, which `Flush` runs as the engine would.
- **BitmaskConverter** (`TileSetBitmaskConverter` in `lib/src/AutoTileConfigBuilder.cs`): turns the terrain peering bits of a Godot tile set into bitmasks keyed by atlas position. `Bitmask.DEFAULT` and `Bitmask.UpdateBitmask` belong to the AutoTile library and are not shown, so they are a parameter (`BitmaskCodec`).
- **ConfigBuilder** (`BulkAutoTileConfig` and `AutoTileConfigBuilder`): numbers tile definitions in enumeration order. Its setters are last-write-wins dictionaries.

The model assumes that a C# `Dictionary` is enumerated in insertion order, and that assigning to a present key keeps that key's place. .NET leaves the enumeration order undefined. The assumption describes the current implementation, and only for a dictionary from which nothing has been removed, which holds for every dictionary here. `Common.Dict` models this assumption, and the model relies on it wherever an enumeration order matters.

## Model

| member | source | states |
|---|---|---|
| Common.Dict.Put | lib/src/AutoTileConfigBuilder.cs:28-68 | `dictionary[key] = value`: the key then holds the value, and every other entry is as before. The old enumeration is kept as a prefix, extended by the key exactly when it was absent. |
| Common.DictSize | lib/src/AutoTileConfigBuilder.cs:24-30 | A well-formed dictionary has as many entries (`Count`) as enumerated keys. |
| Common.PutSpec | lib/src/AutoTileConfigBuilder.cs:60-68 | Assigning `dictionary[key] = value` keeps the dictionary well formed and gives the key the new value. Every other entry and its enumeration place is kept. The key is appended to the enumeration exactly when it was absent. |
| Drawer.AsWrittenGuardAdmitsMissingLayers | lib/src/TileMapDrawer.cs:29-30 | The guard as written accepts exactly `0 <= tileLayer <= Length + 1`, so `Length` and `Length + 1` pass although no such layer exists. |
| Drawer.AcceptsLayerAsWritten | lib/src/TileMapDrawer.cs:29 | The guard as written: accept unless `Length < tileLayer - 1` or `tileLayer < 0`. Its meaning is stated by `AsWrittenGuardAdmitsMissingLayers`. |
| Drawer.AcceptedDrawRunnable | lib/src/TileMapDrawer.cs:29-41 | For a layer the written guard accepts, the queued set/erase loop can run (`CallFits`) exactly when the layer is below the number of layers or the array is empty. The loop reads `TileMapLayers[tileLayer]` only inside the `foreach`, so an empty array runs at any layer number. |
| Drawer.CorrectedGuardIsStricter | lib/src/TileMapDrawer.cs:29-30 | Every layer index is also accepted by the written guard, so the corrected guard only rejects more. |
| Drawer.SetCell | lib/src/TileMapDrawer.cs:35-41 | One `SetCell`: the named position then holds what the element describes (a tile's source and atlas coordinates, or nothing for null), and every other position is unchanged. |
| Drawer.ApplyEntries | lib/src/TileMapDrawer.cs:34-41 | The loop over the array adds no cell outside the old cells and the positions the array names. |
| Drawer.LastAt | lib/src/TileMapDrawer.cs:34-41 | Returns the index of the last array element naming a position: it names it and no later one does. It returns none when no element names it. |
| Drawer.ApplyEntriesAt | lib/src/TileMapDrawer.cs:34-41 | After the deferred loop, each position holds the value of its last array element: a tile data sets `(TileIdToSourceId[tileId], atlasCoords)` and a null erases. A position no element names keeps its old value. |
| Drawer.DrawTouchesOnlyNamedPositions | lib/src/TileMapDrawer.cs:34-41 | A draw leaves every position its array does not name unchanged. |
| Drawer.DrawIsIdempotent | lib/src/TileMapDrawer.cs:34-41 | Applying the same array twice leaves the layer as applying it once. |
| Drawer.EmptyLayers | lib/src/TileMapDrawer.cs:22-23 | A cleared tile map has the same number of layers, each without cells. |
| Drawer.RunCall | lib/src/TileMapDrawer.cs:20-42 | Running one deferred call keeps the number of layers. |
| Drawer.RunAll | lib/src/TileMapDrawer.cs:18-42 | Running the queued calls oldest first keeps the number of layers. |
| Drawer.DrawTouchesOnlyItsLayer | lib/src/TileMapDrawer.cs:34-41 | A queued draw changes only its target layer, and that layer by the set/erase loop. An empty draw changes nothing, whatever its layer number. |
| Drawer.ClearEmptiesEveryLayer | lib/src/TileMapDrawer.cs:22-23 | Running a queued `Clear` leaves every layer without cells, whatever was queued before it. |
| Drawer.RunAllAppend | lib/src/TileMapDrawer.cs:24-42 | Calls queued later run after calls queued earlier: running `first + second` equals running `first`, then `second`. |
| Drawer.LaterDrawWins | lib/src/TileMapDrawer.cs:32-42 | Of two draws queued on one layer, a position the second names shows the second's value, whatever the first did. |
| Drawer.TileMapDrawer.constructor | lib/src/TileMapDrawer.cs:13-16 | The drawer holds the tile map's layers and table, with nothing queued. |
| Drawer.TileMapDrawer.Clear | lib/src/TileMapDrawer.cs:18-25 | No layer changes at call time. Exactly one clearing call is queued. |
| Drawer.TileMapDrawer.DrawTiles | lib/src/TileMapDrawer.cs:27-43 | `DrawTiles` with the corrected guard named in "## Findings", not the guard as written. The call fails, with the layer in its error, exactly when the layer is not an index of the layers; a rejected call queues nothing. An accepted call queues exactly its set/erase loop. No layer changes at call time. |
| Drawer.TileMapDrawer.DrawTilesAsWritten | lib/src/TileMapDrawer.cs:27-43 | With the guard as written: rejected exactly when the guard throws, queuing nothing. An accepted call queues its loop. The queue then stays runnable (`Valid`, which `Flush` needs) exactly when the layer is below the number of layers or the array is empty, and every tile id of the array indexes `TileIdToSourceId`. |
| Drawer.TileMapDrawer.SetCellsNow | lib/src/TileMapDrawer.cs:34-41 | The loop over the array leaves the target layer as `ApplyEntries` describes and every other layer unchanged. An empty array changes nothing, even at a layer number that does not exist. |
| Drawer.TileMapDrawer.ClearNow | lib/src/TileMapDrawer.cs:22-23 | The loop over the layers leaves the same number of layers, all empty. |
| Drawer.TileMapDrawer.Flush | lib/src/TileMapDrawer.cs:20-42 | The engine runs every queued call in order: the layers become `RunAll` of the old layers and the old queue, and the queue is empty. |
| Loader.TileSet.constructor | lib/src/TileMapLoader.cs:24 | A new tile set has no sources, and its id counter starts at 0. |
| Loader.TileSet.AddSource | lib/src/TileMapLoader.cs:88 | The source is registered under a fresh id (the counter), and the counter advances. |
| Loader.TileSet.CreateTile | lib/src/TileMapLoader.cs:96 | The position is added to that source's tiles, and nothing else changes. |
| Loader.CellsOfPathMembers | lib/src/TileMapLoader.cs:20-32 | A position is a cell of an image exactly when some tile of that image has it in its bitmask map. |
| Loader.GroupsPartitionTiles | lib/src/TileMapLoader.cs:49-66 | Every tile id is in the group of its own image path and in no other, and groups of different paths are disjoint. |
| Loader.OnlyOwnGroup | lib/src/TileMapLoader.cs:49-66 | A tile id found in a path's group means that path is the tile's own image path. |
| Loader.GroupsStep | lib/src/TileMapLoader.cs:53-63 | One more tile adds its path to the keys and its id to its own path's group only. |
| Loader.UnionOfGroupIsCellsOfPath | lib/src/TileMapLoader.cs:20-33 | Uniting the atlas positions of a path group's tile ids gives exactly the cells of that image. |
| Loader.AssignPathsToTileIds | lib/src/TileMapLoader.cs:49-66 | The keys are exactly the image paths of the tiles, and each key's set is exactly the ids of the tiles with that image. The dictionary is well formed. |
| Loader.GetBiggestLayer | lib/src/TileMapLoader.cs:68-76 | The result is at least 0 and at least every tile's layer. It is 0 or the layer of some tile. |
| Loader.AtlasPositionsByTileId | lib/src/TileMapLoader.cs:20-22 | The keys are exactly the tile ids, and each id maps to the keys of its tile's bitmask map. |
| Loader.AddSource | lib/src/TileMapLoader.cs:78-89 | Adds one empty atlas source of the given tile size, showing the image, under a fresh id, which it returns. |
| Loader.AssignTilesToSource | lib/src/TileMapLoader.cs:91-97 | The source's tiles grow by exactly the given positions. Every other source is unchanged. |
| Loader.AssignGroupToSource | lib/src/TileMapLoader.cs:29-33 | Every id of the group gets the source id and no other slot changes. The source's tiles grow by exactly the cells of the group's image. |
| Loader.IndexIn | lib/src/TileMapLoader.cs:26 | Returns the position of a path in the dictionary's enumeration order. |
| Loader.AddGroupSource | lib/src/TileMapLoader.cs:26-33 | One turn of the group loop: the source of the g-th path gets id g, shows that path and holds its cells. The tiles of that path get source id g. |
| Loader.CreateSources | lib/src/TileMapLoader.cs:24-34 | The sources are exactly ids `0 .. paths - 1`, in enumeration order. Source j shows the j-th path and holds that image's cells. Each tile's slot holds its path's position. The table has one slot per tile. |
| Loader.CreateLayers | lib/src/TileMapLoader.cs:36-44 | Creates exactly `biggestLayer + 1` layers, each sharing the tile set, filtered `Nearest`, and empty. |
| Loader.Load | lib/src/TileMapLoader.cs:14-47 | There is at least one layer, and no tile's layer is above the top layer. The top layer is some tile's layer, or there is only layer 0. All layers share the fresh tile set. The table has one slot per tile. Each tile's source shows its image and holds every cell of that image. Two tiles share a source exactly when they share an image. Every source is used, and no image has two sources. |
| Loader.SourceOfEachTileHolds | lib/src/TileMapLoader.cs:26-33 | Each tile's table entry names a source that shows the tile's image and holds that image's cells. |
| Loader.SameSourceIffSameImageHolds | lib/src/TileMapLoader.cs:26-33 | Two tiles have the same source id exactly when they have the same image path. |
| Loader.EverySourceUsedHolds | lib/src/TileMapLoader.cs:26-34 | Every source is the source of some tile, since each path comes from a tile. |
| Loader.OneSourcePerImageHolds | lib/src/TileMapLoader.cs:26-28 | Distinct sources show distinct images, since there is one source per distinct path. |
| BitmaskConverter.TileDataHasBitmask | lib/src/AutoTileConfigBuilder.cs:125-126 | A neighbour has a bitmask exactly when the tile data has a peering bit for it that is above -1 (that is, at least 0; -1 is Godot's no-terrain value). |
| BitmaskConverter.CreateBitmaskFrom | lib/src/AutoTileConfigBuilder.cs:109-123 | The mask is `Bitmask.DEFAULT` updated by the eight steps of `Steps`, in order. |
| BitmaskConverter.StepsCoverEachDirectionOnce | lib/src/AutoTileConfigBuilder.cs:111-121 | There are eight updates, their directions are pairwise distinct, and every direction is among them. |
| BitmaskConverter.StepsFollowPeeringBits | lib/src/AutoTileConfigBuilder.cs:113-126 | Each direction is marked present exactly when the peering bit of the Godot neighbour of the same name (TOP_LEFT with TopLeftCorner, …) is above -1. |
| BitmaskConverter.CastToAtlasSources | lib/src/AutoTileConfigBuilder.cs:101-103 | The cast succeeds exactly when every source is an atlas, and then yields each source's tiles in index order. Otherwise it is an invalid cast. |
| BitmaskConverter.PositionsToTileData | lib/src/AutoTileConfigBuilder.cs:105-107 | Every atlas position maps to the data of its requested alternative, or to null when the tile has no such alternative. |
| BitmaskConverter.AddSourceBitmasks | lib/src/AutoTileConfigBuilder.cs:94-96 | Fails with a null dereference exactly when some tile lacks the alternative. Otherwise the source's matching masks are written over the set built so far. |
| BitmaskConverter.GetBitmaskSetFromTileSet | lib/src/AutoTileConfigBuilder.cs:88-99 | The result is `Conversion`. An invalid cast comes first, then a null dereference, and otherwise the matching masks of all sources, later sources overwriting earlier ones. |
| BitmaskConverter.LastMatchingSource | lib/src/AutoTileConfigBuilder.cs:93-96 | Returns the last source with a matching tile at a position: it matches and no later source does. It returns none when no source matches there. |
| BitmaskConverter.BitmaskSetOfLastMatchWins | lib/src/AutoTileConfigBuilder.cs:93-96 | The result has a position exactly when some source has a matching tile there. That position's mask is the mask of the last such source's tile. |
| BitmaskConverter.ConversionIncludesExactlyMatchingTiles | lib/src/AutoTileConfigBuilder.cs:93-96 | A position is in a successful result exactly when some source has a tile there whose terrain and terrain set both equal the requested ones. |
| BitmaskConverter.ConversionErrors | lib/src/AutoTileConfigBuilder.cs:92-107 | The conversion is an invalid cast exactly when some source is not an atlas. It is a null dereference exactly when all are atlases and some tile lacks the alternative. |
| ConfigBuilder.TileIdsOfKeys | lib/src/AutoTileConfigBuilder.cs:22-31 | Exactly the definition names are numbered. |
| ConfigBuilder.TileIdsOfFollowsOrder | lib/src/AutoTileConfigBuilder.cs:22-31 | For distinct names, the i-th name in enumeration order gets id i. |
| ConfigBuilder.TileIdsOfIsBijection | lib/src/AutoTileConfigBuilder.cs:22-31 | The ids are exactly `0 .. n - 1`, and distinct names get distinct ids. |
| ConfigBuilder.PutKeepsTileIds | lib/src/AutoTileConfigBuilder.cs:53-65 | Redefining a present name keeps every tile id. A new name gets the next id, and the others keep theirs. |
| ConfigBuilder.BulkAutoTileConfig.constructor | lib/src/AutoTileConfigBuilder.cs:17-20 | The object holds the given configuration, whose definitions form a well-formed dictionary. |
| ConfigBuilder.BulkAutoTileConfig.GetRandomTileIdsToTileNames | lib/src/AutoTileConfigBuilder.cs:22-31 | The loop yields the numbering `TileIdsOf` of the definition names in enumeration order. Every definition name gets an id, the i-th in enumeration order gets `i`, the ids are exactly `0 .. Count - 1`, and distinct names get distinct ids. |
| ConfigBuilder.AutoTileConfigBuilder.constructor | lib/src/AutoTileConfigBuilder.cs:46-48 | The tile size starts at 0, with no definitions and no bitmask sets, and both enumerations are empty. |
| ConfigBuilder.AutoTileConfigBuilder.SetTileSize | lib/src/AutoTileConfigBuilder.cs:50-51 | The tile size is replaced, and nothing else changes. |
| ConfigBuilder.AutoTileConfigBuilder.AddTileDefinition | lib/src/AutoTileConfigBuilder.cs:53-65 | The name maps to the new definition and every other name keeps its own. The order is kept for a present name. A new name is appended. |
| ConfigBuilder.AutoTileConfigBuilder.AddBitmaskSet | lib/src/AutoTileConfigBuilder.cs:67-68 | The name maps to the new set and every other set is kept. The order is kept for a present name. A new name is appended. |
| ConfigBuilder.AutoTileConfigBuilder.AddBitmaskSetFromTileSet | lib/src/AutoTileConfigBuilder.cs:70-80 | When the conversion fails, its error is returned and nothing changes. Otherwise the converted set is assigned under the name, like `AddBitmaskSet`. |
| ConfigBuilder.AutoTileConfigBuilder.BuildBulkAutoTileConfig | lib/src/AutoTileConfigBuilder.cs:82-83 | A new configuration holds the builder's tile size, definitions and bitmask sets, and is well formed. |

## Left out

- Loading the tiles (`TileLoader.LoadTiles`), `Image.LoadFromFile` and `ImageTexture.CreateFromImage` are image I/O. A source records its image by path. The tiles come in as a sequence in the dictionary's enumeration order.
- `TileSetAtlasSource.CreateTile` errors for positions outside the texture are not modelled, since the texture size is not modelled. A tile created twice stays one tile.
- Loader.Load: requires distinct tile ids. The tiles dictionary is keyed by `TileIdentificator`, whose fields beyond `TileId` are not part of this model.
- Loader.Load: requires tile ids in `[0, tiles.Count)`. Otherwise the write to `tileIdToSourceId` throws `IndexOutOfRangeException`.
- Loader.GetBiggestLayer: does not model 32-bit overflow of `biggestLayer + 1` when a layer is `int.MaxValue`.
- Drawer.TileMapDrawer.DrawTiles: requires every tile id in the array to index `TileIdToSourceId`. When that fails, the source throws inside the deferred closure, on the engine's side, and this method does not represent that. `DrawTilesAsWritten` has no such requirement: a bad tile id there leaves the queue not runnable (`Valid` fails).
- Godot treats `SetCell(position)` with the default source id -1 as an erase. The model applies it as an erase directly.
- Drawer.SetCell: Godot also erases a cell whose atlas coordinates are `(-1, -1)`. A tile data with those coordinates is stored by the model as `Cell(sourceId, (-1, -1))` instead of erasing the cell.
- Drawer.TileMapDrawer.DrawTiles: the closure reads the caller's array when the engine runs it, so changes the caller makes to the array after the call are what get drawn. The model queues a copy of the array's contents as they are at the call.
- ConfigBuilder.AutoTileConfigBuilder.AddBitmaskSet: the builder stores the caller's `Dictionary` object, which the caller can still change afterwards. The model stores the set's value at the call.
- The threading and idle-time semantics of `CallDeferred` are engine concurrency. Only the FIFO order of queued calls is modelled.
- `Bitmask.DEFAULT`, `Bitmask.UpdateBitmask` and the bit layout are not part of this model. They are a `BitmaskCodec` parameter.
- BitmaskConverter.GetBitmaskSetFromTileSet: the order in which one atlas source enumerates its tiles is not modelled. Positions within one source are distinct, so that order does not change the result.
- `ToDictionary` throwing on duplicate source ids or tile ids cannot happen with Godot's tile sets, so it is not modelled.
- ConfigBuilder.BulkAutoTileConfig.GetRandomTileIdsToTileNames: does not model 32-bit overflow of `tileId++` beyond `int.MaxValue` definitions.
- ConfigBuilder.AutoTileConfigBuilder.BuildBulkAutoTileConfig: `AutoTileConfig.Construct` belongs to the AutoTile library and is not shown. It is modelled as keeping the builder's values as they are. Sharing of the builder's dictionary objects is not modelled.
- `BulkAutoTileConfig.LoadFromFile` and `SaveToFile` are JSON file I/O through the AutoTile library.
- The bitmask resolver, `UpdateTiles`, `DrawTilesAsync` and `Wait` belong to the AutoTile library (`AutoTileDrawer`, `AutoTiler`), which is not part of this model.
- `lib/src/BulkAutotileDrawerComposer.cs` is a wrapper that delegates to the AutoTile drawer. `lib/src/TypeMapper.cs` is the identity here, because `Vector2I` and `Vector2Int` are one datatype. The benchmark and example scenes are not part of this model.

## Findings

| source | as written | input that shows it | evidently intended | confidence | as-written member | corrected member |
|---|---|---|---|---|---|---|
| lib/src/TileMapDrawer.cs:29 | `TileMapLayers.Length < tileLayer - 1 \|\| tileLayer < 0` rejects only layers below 0 or above `Length + 1` | A tile map with 1 layer, `tileLayer = 1` (or 2) and a non-empty array. The guard lets it through, and the deferred closure then indexes `TileMapLayers[1]` (or `TileMapLayers[2]`) out of range. | Reject every `tileLayer` that is not in `[0, Length)` | high; not executed | Drawer.AsWrittenGuardAdmitsMissingLayers, Drawer.TileMapDrawer.DrawTilesAsWritten | Drawer.TileMapDrawer.DrawTiles |
