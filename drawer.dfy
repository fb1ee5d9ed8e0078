/** TileMapDrawer: validates the layer of a draw, defers the work with
    `CallDeferred`, and when the deferred work runs applies set/erase
    operations to one layer in array order; `Clear` empties every layer. */
module Drawer {
  import opened Common

  /** What a render-surface cell holds: the atlas source and the atlas coordinates. */
  datatype Cell = Cell(sourceId: int, atlasCoords: Vector2Int)

  /** AutoTile.TileData, of which the drawer reads the tile id and the atlas coordinates. */
  datatype TileData = TileData(tileId: int, atlasCoords: Vector2Int)

  /** One element of the `positionsToTileData` array; `None` is a null tile data (erase). */
  type Entry = (Vector2Int, Option<TileData>)

  type Layer = map<Vector2Int, Cell>

  datatype DrawError = InvalidTileLayer(tileLayer: int)

  /** A closure handed to `CallDeferred`, waiting for the engine to run it. */
  datatype DeferredCall =
    | ClearLayers
    | SetCells(tileLayer: nat, entries: seq<Entry>)

  function Lookup(layer: Layer, position: Vector2Int): Option<Cell>
  {
    if position in layer then Some(layer[position]) else None
  }

  lemma {:induction false} LayerExtensionality(a: Layer, b: Layer)
    requires forall p :: Lookup(a, p) == Lookup(b, p)
    ensures a == b
  {
    forall p | p in a ensures p in b && a[p] == b[p] {
      assert Lookup(a, p) == Lookup(b, p);
    }
    forall p | p in b ensures p in a {
      assert Lookup(a, p) == Lookup(b, p);
    }
  }

  // ---------------------------------------------------------------------------
  // The layer guard (lib/src/TileMapDrawer.cs:29)

  /** The guard as the source writes it: the call is rejected when
      `Length < tileLayer - 1 || tileLayer < 0`. */
  predicate AcceptsLayerAsWritten(tileLayer: int, layerCount: nat)
  {
    !(layerCount < tileLayer - 1 || tileLayer < 0)
  }

  /** The guard the deferred code needs: `TileMapLayers[tileLayer]` must exist. */
  predicate IsLayerIndex(tileLayer: int, layerCount: nat)
  {
    0 <= tileLayer < layerCount
  }

  /** The written guard admits exactly `0 <= tileLayer <= Length + 1`, so two
      accepted values are not layer indices, whatever the number of layers. */
  lemma AsWrittenGuardAdmitsMissingLayers(layerCount: nat)
    ensures forall l :: AcceptsLayerAsWritten(l, layerCount) <==> 0 <= l <= layerCount + 1
    ensures AcceptsLayerAsWritten(layerCount, layerCount) && !IsLayerIndex(layerCount, layerCount)
    ensures AcceptsLayerAsWritten(layerCount + 1, layerCount) && !IsLayerIndex(layerCount + 1, layerCount)
  {
  }

  /** Every index the corrected guard accepts the written one accepts too, so
      the correction only rejects more. */
  lemma CorrectedGuardIsStricter(tileLayer: int, layerCount: nat)
    requires IsLayerIndex(tileLayer, layerCount)
    ensures AcceptsLayerAsWritten(tileLayer, layerCount)
  {
  }

  // ---------------------------------------------------------------------------
  // What the deferred work does (lib/src/TileMapDrawer.cs:20-24, 32-42)

  predicate EntryFits(e: Entry, tableSize: nat)
  {
    e.1.Some? ==> 0 <= e.1.value.tileId < tableSize
  }

  predicate EntriesFit(entries: seq<Entry>, tableSize: nat)
  {
    forall k :: 0 <= k < |entries| ==> EntryFits(entries[k], tableSize)
  }

  /** A deferred call the engine can run without an exception: the set/erase
      loop reads `TileMapLayers[tileLayer]` only inside the `foreach`, so an
      empty array runs at any layer number. */
  predicate CallFits(c: DeferredCall, layerCount: nat, tableSize: nat)
  {
    c.SetCells? ==> (c.tileLayer < layerCount || c.entries == []) && EntriesFit(c.entries, tableSize)
  }

  /** A draw the written guard lets through queues a call that the deferred
      code can run exactly when its layer is below the number of layers or
      its array is empty. */
  lemma AcceptedDrawRunnable(tileLayer: nat, entries: seq<Entry>, layerCount: nat, tableSize: nat)
    requires AcceptsLayerAsWritten(tileLayer, layerCount) && EntriesFit(entries, tableSize)
    ensures CallFits(SetCells(tileLayer, entries), layerCount, tableSize) <==> tileLayer < layerCount || entries == []
  {
  }

  /** What one array element leaves in its cell: a tile data sets the cell to
      its tile's source and its atlas coordinates, a null one erases it. */
  function EntryCell(e: Entry, tileIdToSourceId: seq<int>): Option<Cell>
    requires EntryFits(e, |tileIdToSourceId|)
  {
    match e.1
    case Some(t) => Some(Cell(tileIdToSourceId[t.tileId], t.atlasCoords))
    case None => None
  }

  /** `SetCell` for one array element. */
  function SetCell(layer: Layer, e: Entry, tileIdToSourceId: seq<int>): (r: Layer)
    requires EntryFits(e, |tileIdToSourceId|)
    ensures Lookup(r, e.0) == EntryCell(e, tileIdToSourceId)
    ensures forall p :: p != e.0 ==> Lookup(r, p) == Lookup(layer, p)
  {
    match EntryCell(e, tileIdToSourceId)
    case Some(c) => layer[e.0 := c]
    case None => layer - {e.0}
  }

  /** The `foreach` over the array, in array order. */
  function ApplyEntries(layer: Layer, entries: seq<Entry>, tileIdToSourceId: seq<int>): (r: Layer)
    requires EntriesFit(entries, |tileIdToSourceId|)
    ensures forall p :: p in r ==> p in layer || exists k :: 0 <= k < |entries| && entries[k].0 == p
    decreases |entries|
  {
    if entries == [] then layer
    else
      var n := |entries| - 1;
      SetCell(ApplyEntries(layer, entries[..n], tileIdToSourceId), entries[n], tileIdToSourceId)
  }

  /** The index of the last element of `entries` naming `position`, if any. */
  function LastAt(entries: seq<Entry>, position: Vector2Int): (r: Option<nat>)
    ensures r.Some? ==> r.value < |entries| && entries[r.value].0 == position
    ensures r.Some? ==> forall j :: r.value < j < |entries| ==> entries[j].0 != position
    ensures r.None? ==> forall j :: 0 <= j < |entries| ==> entries[j].0 != position
    decreases |entries|
  {
    if entries == [] then None
    else if entries[|entries| - 1].0 == position then Some(|entries| - 1)
    else LastAt(entries[..|entries| - 1], position)
  }

  /** Each position ends up with the value of its last element in the array;
      a position the array does not name keeps what it had. */
  lemma {:induction false} ApplyEntriesAt(layer: Layer, entries: seq<Entry>, tileIdToSourceId: seq<int>, p: Vector2Int)
    requires EntriesFit(entries, |tileIdToSourceId|)
    ensures Lookup(ApplyEntries(layer, entries, tileIdToSourceId), p) ==
      match LastAt(entries, p)
      case Some(k) => EntryCell(entries[k], tileIdToSourceId)
      case None => Lookup(layer, p)
    decreases |entries|
  {
    if entries != [] {
      var n := |entries| - 1;
      var front := entries[..n];
      assert EntriesFit(front, |tileIdToSourceId|) by {
        forall k | 0 <= k < |front| ensures EntryFits(front[k], |tileIdToSourceId|) {
          assert front[k] == entries[k];
        }
      }
      ApplyEntriesAt(layer, front, tileIdToSourceId, p);
      if entries[n].0 != p {
        assert LastAt(entries, p) == LastAt(front, p);
        match LastAt(front, p)
        case Some(k) => assert entries[k] == front[k];
        case None =>
      }
    }
  }

  /** A draw touches only the positions its array names. */
  lemma DrawTouchesOnlyNamedPositions(layer: Layer, entries: seq<Entry>, tileIdToSourceId: seq<int>, p: Vector2Int)
    requires EntriesFit(entries, |tileIdToSourceId|)
    requires forall k :: 0 <= k < |entries| ==> entries[k].0 != p
    ensures Lookup(ApplyEntries(layer, entries, tileIdToSourceId), p) == Lookup(layer, p)
  {
    ApplyEntriesAt(layer, entries, tileIdToSourceId, p);
  }

  /** Applying the same array twice leaves the layer as applying it once. */
  lemma DrawIsIdempotent(layer: Layer, entries: seq<Entry>, tileIdToSourceId: seq<int>)
    requires EntriesFit(entries, |tileIdToSourceId|)
    ensures ApplyEntries(ApplyEntries(layer, entries, tileIdToSourceId), entries, tileIdToSourceId)
         == ApplyEntries(layer, entries, tileIdToSourceId)
  {
    var once := ApplyEntries(layer, entries, tileIdToSourceId);
    var twice := ApplyEntries(once, entries, tileIdToSourceId);
    forall p ensures Lookup(twice, p) == Lookup(once, p) {
      ApplyEntriesAt(once, entries, tileIdToSourceId, p);
      ApplyEntriesAt(layer, entries, tileIdToSourceId, p);
    }
    LayerExtensionality(twice, once);
  }

  function EmptyLayers(count: nat): (r: seq<Layer>)
    ensures |r| == count && forall i :: 0 <= i < count ==> r[i] == map[]
  {
    seq(count, _ => map[])
  }

  /** Running one deferred call on all layers. */
  function RunCall(layers: seq<Layer>, c: DeferredCall, tileIdToSourceId: seq<int>): (r: seq<Layer>)
    requires CallFits(c, |layers|, |tileIdToSourceId|)
    ensures |r| == |layers|
  {
    match c
    case ClearLayers => EmptyLayers(|layers|)
    case SetCells(l, entries) =>
      if entries == [] then layers else layers[l := ApplyEntries(layers[l], entries, tileIdToSourceId)]
  }

  predicate CallsFit(calls: seq<DeferredCall>, layerCount: nat, tableSize: nat)
  {
    forall k :: 0 <= k < |calls| ==> CallFits(calls[k], layerCount, tableSize)
  }

  /** Running the pending calls in the order they were queued. */
  function RunAll(layers: seq<Layer>, calls: seq<DeferredCall>, tileIdToSourceId: seq<int>): (r: seq<Layer>)
    requires CallsFit(calls, |layers|, |tileIdToSourceId|)
    ensures |r| == |layers|
    decreases |calls|
  {
    if calls == [] then layers
    else
      var n := |calls| - 1;
      RunCall(RunAll(layers, calls[..n], tileIdToSourceId), calls[n], tileIdToSourceId)
  }

  /** A queued draw changes only its own layer; an empty one changes nothing,
      whatever its layer number. */
  lemma DrawTouchesOnlyItsLayer(layers: seq<Layer>, l: nat, entries: seq<Entry>, tileIdToSourceId: seq<int>)
    requires CallFits(SetCells(l, entries), |layers|, |tileIdToSourceId|)
    ensures forall i :: 0 <= i < |layers| && i != l ==>
      RunCall(layers, SetCells(l, entries), tileIdToSourceId)[i] == layers[i]
    ensures l < |layers| ==>
      RunCall(layers, SetCells(l, entries), tileIdToSourceId)[l] == ApplyEntries(layers[l], entries, tileIdToSourceId)
    ensures entries == [] ==> RunCall(layers, SetCells(l, entries), tileIdToSourceId) == layers
  {
  }

  /** The queued `Clear` leaves every layer without cells, whatever came before it. */
  lemma {:induction false} ClearEmptiesEveryLayer(layers: seq<Layer>, before: seq<DeferredCall>, tileIdToSourceId: seq<int>)
    requires CallsFit(before + [ClearLayers], |layers|, |tileIdToSourceId|)
    ensures forall i :: 0 <= i < |layers| ==> RunAll(layers, before + [ClearLayers], tileIdToSourceId)[i] == map[]
  {
    assert (before + [ClearLayers])[..|before|] == before;
  }

  lemma CallsFitAppend(first: seq<DeferredCall>, second: seq<DeferredCall>, layerCount: nat, tableSize: nat)
    requires CallsFit(first, layerCount, tableSize) && CallsFit(second, layerCount, tableSize)
    ensures CallsFit(first + second, layerCount, tableSize)
  {
    forall k | 0 <= k < |first + second| ensures CallFits((first + second)[k], layerCount, tableSize) {
      if k >= |first| { assert (first + second)[k] == second[k - |first|]; }
    }
  }

  /** Calls queued later are applied after calls queued earlier. */
  lemma {:induction false} RunAllAppend(layers: seq<Layer>, first: seq<DeferredCall>, second: seq<DeferredCall>, tileIdToSourceId: seq<int>)
    requires CallsFit(first, |layers|, |tileIdToSourceId|)
    requires CallsFit(second, |layers|, |tileIdToSourceId|)
    ensures CallsFit(first + second, |layers|, |tileIdToSourceId|)
    ensures RunAll(layers, first + second, tileIdToSourceId)
         == RunAll(RunAll(layers, first, tileIdToSourceId), second, tileIdToSourceId)
    decreases |second|
  {
    CallsFitAppend(first, second, |layers|, |tileIdToSourceId|);
    if second == [] {
      assert first + second == first;
    } else {
      var n := |second| - 1;
      var front := second[..n];
      var last := second[n];
      assert second == front + [last];
      assert CallsFit(front, |layers|, |tileIdToSourceId|) by {
        forall k | 0 <= k < |front| ensures CallFits(front[k], |layers|, |tileIdToSourceId|) {
          assert front[k] == second[k];
        }
      }
      RunAllAppend(layers, first, front, tileIdToSourceId);
      var all := first + second;
      assert all[..|all| - 1] == first + front;
      assert all[|all| - 1] == last;
      var mid := RunAll(layers, first, tileIdToSourceId);
      calc {
        RunAll(layers, all, tileIdToSourceId);
        RunCall(RunAll(layers, first + front, tileIdToSourceId), last, tileIdToSourceId);
        RunCall(RunAll(mid, front, tileIdToSourceId), last, tileIdToSourceId);
        RunAll(mid, second, tileIdToSourceId);
      }
    }
  }

  /** Two draws queued one after the other on one layer: a position the second
      names shows the second's last value for it, whatever the first did. */
  lemma LaterDrawWins(layers: seq<Layer>, l: nat, a: seq<Entry>, b: seq<Entry>, tileIdToSourceId: seq<int>, p: Vector2Int)
    requires l < |layers| && EntriesFit(a, |tileIdToSourceId|) && EntriesFit(b, |tileIdToSourceId|)
    requires LastAt(b, p).Some?
    ensures CallsFit([SetCells(l, a), SetCells(l, b)], |layers|, |tileIdToSourceId|)
    ensures Lookup(RunAll(layers, [SetCells(l, a), SetCells(l, b)], tileIdToSourceId)[l], p)
         == EntryCell(b[LastAt(b, p).value], tileIdToSourceId)
  {
    var calls := [SetCells(l, a), SetCells(l, b)];
    assert calls[..1] == [SetCells(l, a)];
    assert calls[..1][..0] == [];
    var mid := RunAll(layers, calls[..1], tileIdToSourceId);
    ApplyEntriesAt(mid[l], b, tileIdToSourceId, p);
  }

  // ---------------------------------------------------------------------------
  // The drawer object

  class TileMapDrawer {
    /** The cells of `GodotTileMap.TileMapLayers`, one map per layer. */
    var layers: seq<Layer>
    /** `GodotTileMap.TileIdToSourceId`. */
    const tileIdToSourceId: seq<int>
    /** Closures passed to `CallDeferred` that the engine has not run yet, oldest first. */
    var pending: seq<DeferredCall>

    ghost predicate Valid()
      reads this
    {
      CallsFit(pending, |layers|, |tileIdToSourceId|)
    }

    constructor (layerCells: seq<Layer>, tileIdToSourceId: seq<int>)
      ensures Valid()
      ensures layers == layerCells && this.tileIdToSourceId == tileIdToSourceId && pending == []
    {
      layers := layerCells;
      this.tileIdToSourceId := tileIdToSourceId;
      pending := [];
    }

    /** Queues the emptying of every layer; nothing changes until the queue runs. */
    method Clear()
      requires Valid()
      modifies this
      ensures Valid()
      ensures layers == old(layers) && pending == old(pending) + [ClearLayers]
    {
      pending := pending + [ClearLayers];
    }

    /** `DrawTiles` with the corrected guard (see the as-written
        `DrawTilesAsWritten`): rejects a layer that does not exist, before
        anything is queued; otherwise queues the set/erase loop over `entries`
        for that layer. */
    method DrawTiles(tileLayer: int, entries: seq<Entry>) returns (result: Outcome<DrawError>)
      requires Valid()
      requires EntriesFit(entries, |tileIdToSourceId|)
      modifies this
      ensures Valid()
      ensures layers == old(layers)
      ensures result.Fail? <==> !IsLayerIndex(tileLayer, |layers|)
      ensures result.Fail? ==> result.error == InvalidTileLayer(tileLayer) && pending == old(pending)
      ensures result.Pass? ==> pending == old(pending) + [SetCells(tileLayer, entries)]
    {
      if !IsLayerIndex(tileLayer, |layers|) {
        return Fail(InvalidTileLayer(tileLayer));
      }
      pending := pending + [SetCells(tileLayer, entries)];
      result := Pass;
    }

    /** `DrawTiles` with the guard as written (lib/src/TileMapDrawer.cs:27-43):
        the call is queued for `Length` and `Length + 1` too. The queue stays
        runnable exactly when the layer exists or the array is empty, and every
        tile id of the array indexes `TileIdToSourceId`. */
    method DrawTilesAsWritten(tileLayer: int, entries: seq<Entry>) returns (result: Outcome<DrawError>)
      requires Valid()
      modifies this
      ensures layers == old(layers)
      ensures result.Fail? <==> !AcceptsLayerAsWritten(tileLayer, |layers|)
      ensures result.Fail? ==> result.error == InvalidTileLayer(tileLayer) && pending == old(pending)
      ensures result.Pass? ==> pending == old(pending) + [SetCells(tileLayer, entries)]
      ensures result.Pass? ==>
        (Valid() <==> (tileLayer < |layers| || entries == []) && EntriesFit(entries, |tileIdToSourceId|))
    {
      if |layers| < tileLayer - 1 || tileLayer < 0 {
        return Fail(InvalidTileLayer(tileLayer));
      }
      pending := pending + [SetCells(tileLayer, entries)];
      result := Pass;
      if CallFits(SetCells(tileLayer, entries), |layers|, |tileIdToSourceId|) {
        CallsFitAppend(old(pending), [SetCells(tileLayer, entries)], |layers|, |tileIdToSourceId|);
      } else {
        assert !CallFits(pending[|pending| - 1], |layers|, |tileIdToSourceId|);
      }
    }

    /** The deferred `foreach`: one `SetCell` per array element, in array
        order; the layer is read only inside the loop. */
    method SetCellsNow(tileLayer: nat, entries: seq<Entry>)
      requires CallFits(SetCells(tileLayer, entries), |layers|, |tileIdToSourceId|)
      modifies this`layers
      ensures tileLayer < |old(layers)| ==>
        layers == old(layers)[tileLayer := ApplyEntries(old(layers)[tileLayer], entries, tileIdToSourceId)]
      ensures entries == [] ==> layers == old(layers)
    {
      ghost var start := if tileLayer < |layers| then layers[tileLayer] else map[];
      for k := 0 to |entries|
        invariant |layers| == old(|layers|)
        invariant tileLayer < |layers| ==>
          layers == old(layers)[tileLayer := ApplyEntries(start, entries[..k], tileIdToSourceId)]
        invariant tileLayer >= |layers| ==> layers == old(layers)
      {
        assert entries[..k + 1][..k] == entries[..k];
        var (position, tileData) := entries[k];
        match tileData {
          case Some(t) =>
            layers := layers[tileLayer := layers[tileLayer][position := Cell(tileIdToSourceId[t.tileId], t.atlasCoords)]];
          case None =>
            layers := layers[tileLayer := layers[tileLayer] - {position}];
        }
      }
      assert entries[..|entries|] == entries;
    }

    /** The deferred `Clear`: empties the layers one after the other. */
    method ClearNow()
      modifies this`layers
      ensures layers == EmptyLayers(|old(layers)|)
    {
      for i := 0 to |layers|
        invariant |layers| == old(|layers|)
        invariant forall j :: 0 <= j < i ==> layers[j] == map[]
      {
        layers := layers[i := map[]];
      }
    }

    /** The engine running every deferred call, oldest first. */
    method Flush()
      requires Valid()
      modifies this
      ensures Valid() && pending == []
      ensures layers == RunAll(old(layers), old(pending), tileIdToSourceId)
    {
      var calls := pending;
      pending := [];
      for k := 0 to |calls|
        invariant |layers| == old(|layers|) && pending == []
        invariant CallsFit(calls, |layers|, |tileIdToSourceId|)
        invariant layers == RunAll(old(layers), calls[..k], tileIdToSourceId)
      {
        assert calls[..k + 1][..k] == calls[..k];
        match calls[k] {
          case ClearLayers => ClearNow();
          case SetCells(l, entries) => SetCellsNow(l, entries);
        }
      }
      assert calls[..|calls|] == calls;
    }
  }
}
