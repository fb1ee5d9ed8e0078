/** AutoTileConfigBuilder and BulkAutoTileConfig: collect tile definitions and
    bitmask sets under names, and number the tile definitions for drawing. */
module ConfigBuilder {
  import opened Common
  import opened BitmaskConverter

  /** AutoTile.TileDefinition. */
  datatype TileDefinition = TileDefinition(
    layer: int, imageFileName: string, bitmaskName: string, positionInSet: Vector2Int, autoTileGroup: int)

  /** The contents of an AutoTile.AutoTileConfig. */
  datatype AutoTileConfig = AutoTileConfig(
    tileSize: int,
    tileDefinitions: Dict<string, TileDefinition>,
    bitmaskSets: Dict<string, map<Vector2Int, byte>>)

  /** The ids the numbering loop gives to `names`: the i-th name gets `i`, a
      name seen again keeping the later number. */
  function TileIdsOf(names: seq<string>): map<string, int>
    decreases |names|
  {
    if names == [] then map[]
    else
      var n := |names| - 1;
      TileIdsOf(names[..n])[names[n] := n]
  }

  /** Exactly the names are numbered. */
  lemma {:induction false} TileIdsOfKeys(names: seq<string>)
    ensures forall name :: name in TileIdsOf(names) <==> name in names
    decreases |names|
  {
    if names != [] {
      var n := |names| - 1;
      TileIdsOfKeys(names[..n]);
      assert names == names[..n] + [names[n]];
    }
  }

  /** For distinct names, the i-th name is numbered `i`. */
  lemma {:induction false} TileIdsOfFollowsOrder(names: seq<string>)
    requires Distinct(names)
    ensures forall i :: 0 <= i < |names| ==> names[i] in TileIdsOf(names) && TileIdsOf(names)[names[i]] == i
    decreases |names|
  {
    if names != [] {
      var n := |names| - 1;
      var front := names[..n];
      assert Distinct(front) by {
        forall i, j | 0 <= i < j < |front| ensures front[i] != front[j] {
          assert front[i] == names[i] && front[j] == names[j];
        }
      }
      TileIdsOfFollowsOrder(front);
      forall i | 0 <= i < n ensures TileIdsOf(names)[names[i]] == i {
        assert front[i] == names[i] && names[i] != names[n];
      }
    }
  }

  /** For distinct names the numbering is a bijection from the names onto
      `0 .. |names| - 1`. */
  lemma TileIdsOfIsBijection(names: seq<string>)
    requires Distinct(names)
    ensures forall v :: v in TileIdsOf(names).Values <==> 0 <= v < |names|
    ensures forall a, b :: a in TileIdsOf(names) && b in TileIdsOf(names) && a != b ==>
      TileIdsOf(names)[a] != TileIdsOf(names)[b]
  {
    TileIdsOfKeys(names);
    TileIdsOfFollowsOrder(names);
    var ids := TileIdsOf(names);
    forall v ensures v in ids.Values <==> 0 <= v < |names| {
      if 0 <= v < |names| {
        assert ids[names[v]] == v;
      }
      if v in ids.Values {
        var name :| name in ids && ids[name] == v;
        var i :| 0 <= i < |names| && names[i] == name;
      }
    }
    forall a, b | a in ids && b in ids && a != b ensures ids[a] != ids[b] {
      var i :| 0 <= i < |names| && names[i] == a;
      var j :| 0 <= j < |names| && names[j] == b;
    }
  }

  /** Assigning a definition under a name already present keeps every tile id;
      a new name gets the next id and the others keep theirs. */
  lemma PutKeepsTileIds<V>(d: Dict<string, V>, name: string, value: V)
    requires d.Valid()
    ensures name in d.entries ==> TileIdsOf(d.Put(name, value).keys) == TileIdsOf(d.keys)
    ensures name !in d.entries ==> TileIdsOf(d.Put(name, value).keys) == TileIdsOf(d.keys)[name := |d.keys|]
  {
    if name !in d.entries {
      assert (d.keys + [name])[..|d.keys|] == d.keys;
    }
  }

  /** A configuration the drawer can be built from. */
  class BulkAutoTileConfig {
    const autoTileConfig: AutoTileConfig

    /** Its tile definitions form a well-formed dictionary. */
    ghost predicate Valid()
    {
      autoTileConfig.tileDefinitions.Valid()
    }

    constructor (autoTileConfig: AutoTileConfig)
      requires autoTileConfig.tileDefinitions.Valid()
      ensures Valid()
      ensures this.autoTileConfig == autoTileConfig
    {
      this.autoTileConfig := autoTileConfig;
    }

    /** Numbers the tile definitions in their enumeration order
        (lib/src/AutoTileConfigBuilder.cs:22-31): every definition gets an id,
        the i-th one `i`, so the ids are a bijection onto `0 .. Count - 1`. */
    method GetRandomTileIdsToTileNames() returns (tileIdsToTileNames: map<string, int>)
      requires Valid()
      ensures tileIdsToTileNames == TileIdsOf(autoTileConfig.tileDefinitions.keys)
      ensures tileIdsToTileNames.Keys == autoTileConfig.tileDefinitions.entries.Keys
      ensures forall i :: 0 <= i < |autoTileConfig.tileDefinitions.keys| ==>
        tileIdsToTileNames[autoTileConfig.tileDefinitions.keys[i]] == i
      ensures forall v :: v in tileIdsToTileNames.Values <==> 0 <= v < |autoTileConfig.tileDefinitions.entries|
      ensures forall a, b :: a in tileIdsToTileNames && b in tileIdsToTileNames && a != b ==>
        tileIdsToTileNames[a] != tileIdsToTileNames[b]
    {
      var names := autoTileConfig.tileDefinitions.keys;
      tileIdsToTileNames := map[];
      var tileId := 0;
      for i := 0 to |names|
        invariant tileId == i
        invariant tileIdsToTileNames == TileIdsOf(names[..i])
      {
        assert names[..i + 1][..i] == names[..i];
        tileIdsToTileNames := tileIdsToTileNames[names[i] := tileId];
        tileId := tileId + 1;
      }
      assert names[..|names|] == names;
      TileIdsOfKeys(names);
      TileIdsOfFollowsOrder(names);
      TileIdsOfIsBijection(names);
      DictSize(autoTileConfig.tileDefinitions);
    }
  }

  /** Collects the parts of a configuration; each setter overwrites what it names. */
  class AutoTileConfigBuilder {
    var tileSize: int
    var tileDefinitions: Dict<string, TileDefinition>
    var bitmaskSets: Dict<string, map<Vector2Int, byte>>

    ghost predicate Valid()
      reads this
    {
      tileDefinitions.Valid() && bitmaskSets.Valid()
    }

    /** The tile size starts at 0, with no definitions and no bitmask sets
        (lib/src/AutoTileConfigBuilder.cs:46-48). */
    constructor ()
      ensures Valid() && tileSize == 0
      ensures tileDefinitions.entries == map[] && bitmaskSets.entries == map[]
      ensures tileDefinitions.keys == [] && bitmaskSets.keys == []
    {
      tileSize := 0;
      tileDefinitions := EmptyDict();
      bitmaskSets := EmptyDict();
    }

    /** lib/src/AutoTileConfigBuilder.cs:50-51 */
    method SetTileSize(tileSize: int)
      modifies this
      ensures this.tileSize == tileSize
      ensures tileDefinitions == old(tileDefinitions) && bitmaskSets == old(bitmaskSets)
    {
      this.tileSize := tileSize;
    }

    /** Sets the definition of `tileName`, replacing any earlier one
        (lib/src/AutoTileConfigBuilder.cs:53-65). */
    method AddTileDefinition(tileName: string, layer: int, imageFileName: string, bitmaskName: string,
                             positionInSet: Vector2Int, autoTileGroup: int)
      requires Valid()
      modifies this
      ensures Valid()
      ensures tileDefinitions.entries == old(tileDefinitions.entries)[tileName :=
        TileDefinition(layer, imageFileName, bitmaskName, positionInSet, autoTileGroup)]
      ensures tileName in old(tileDefinitions.entries) ==> tileDefinitions.keys == old(tileDefinitions.keys)
      ensures tileName !in old(tileDefinitions.entries) ==> tileDefinitions.keys == old(tileDefinitions.keys) + [tileName]
      ensures tileSize == old(tileSize) && bitmaskSets == old(bitmaskSets)
    {
      PutSpec(tileDefinitions, tileName, TileDefinition(layer, imageFileName, bitmaskName, positionInSet, autoTileGroup));
      tileDefinitions := tileDefinitions.Put(tileName,
        TileDefinition(layer, imageFileName, bitmaskName, positionInSet, autoTileGroup));
    }

    /** Sets the bitmask set named `bitmaskName`, replacing any earlier one
        (lib/src/AutoTileConfigBuilder.cs:67-68). */
    method AddBitmaskSet(bitmaskName: string, bitmaskSet: map<Vector2Int, byte>)
      requires Valid()
      modifies this
      ensures Valid()
      ensures bitmaskSets.entries == old(bitmaskSets.entries)[bitmaskName := bitmaskSet]
      ensures bitmaskName in old(bitmaskSets.entries) ==> bitmaskSets.keys == old(bitmaskSets.keys)
      ensures bitmaskName !in old(bitmaskSets.entries) ==> bitmaskSets.keys == old(bitmaskSets.keys) + [bitmaskName]
      ensures tileSize == old(tileSize) && tileDefinitions == old(tileDefinitions)
    {
      PutSpec(bitmaskSets, bitmaskName, bitmaskSet);
      bitmaskSets := bitmaskSets.Put(bitmaskName, bitmaskSet);
    }

    /** Converts the terrain of a Godot tile set and sets it as the bitmask set
        `bitmaskName` (lib/src/AutoTileConfigBuilder.cs:70-80). When the
        conversion throws, nothing is assigned and the error is returned. */
    method AddBitmaskSetFromTileSet(codec: BitmaskCodec, bitmaskName: string, tileSet: seq<TileSetSource>,
                                    terrainSet: int, terrain: int, altTileId: int := 0)
      returns (outcome: Outcome<ConversionError>)
      requires Valid()
      modifies this
      ensures Valid()
      ensures var converted := Conversion(codec, tileSet, terrainSet, terrain, altTileId);
        && (outcome.Fail? <==> converted.Failure?)
        && (converted.Failure? ==> outcome.error == converted.error && bitmaskSets == old(bitmaskSets))
        && (converted.Success? ==> bitmaskSets == old(bitmaskSets).Put(bitmaskName, converted.value))
      ensures tileSize == old(tileSize) && tileDefinitions == old(tileDefinitions)
    {
      var converted := GetBitmaskSetFromTileSet(codec, tileSet, terrainSet, terrain, altTileId);
      if converted.Failure? {
        return Fail(converted.error);
      }
      PutSpec(bitmaskSets, bitmaskName, converted.value);
      bitmaskSets := bitmaskSets.Put(bitmaskName, converted.value);
      outcome := Pass;
    }

    /** Hands the collected parts over as a configuration
        (lib/src/AutoTileConfigBuilder.cs:82-83). */
    method BuildBulkAutoTileConfig() returns (config: BulkAutoTileConfig)
      requires Valid()
      ensures fresh(config) && config.Valid()
      ensures config.autoTileConfig == AutoTileConfig(tileSize, tileDefinitions, bitmaskSets)
    {
      config := new BulkAutoTileConfig(AutoTileConfig(tileSize, tileDefinitions, bitmaskSets));
    }
  }
}
