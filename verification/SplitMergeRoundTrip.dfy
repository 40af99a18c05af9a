/** Split, any number of swaps, merge: the grid shows the same contents as before. */
module SplitMergeRoundTrip {
  import opened Strings
  import opened CropGeometry
  import opened CameraGrid
  import opened CameraGridInvariant
  import opened CameraGridTheorems

  /** Everything a row shows: all of an entry but its slot, the direction of a split that is over
      and the sensor batch (a swap leaves slot and sensors where they are). */
  datatype Content = Content(
    title: string, cameraId: string, isOnline: bool, cameraType: string, description: string,
    splitCount: int, cropRect: Rect, splitGroupId: int, splitIndex: int, width: int, height: int)

  function ContentOf(e: Entry): Content {
    Content(e.title, e.cameraId, e.isOnline, e.cameraType, e.description,
            e.splitCount, e.cropRect, e.splitGroupId, e.splitIndex, e.width, e.height)
  }

  function ContentList(rows: seq<Entry>): seq<Content> {
    seq(|rows|, i requires 0 <= i < |rows| => ContentOf(rows[i]))
  }

  function Contents(rows: seq<Entry>): multiset<Content> {
    multiset(ContentList(rows))
  }

  lemma ContentsOfInsert(a: seq<Entry>, e: Entry, b: seq<Entry>)
    ensures Contents(a + [e] + b) == Contents(a + b) + multiset{ContentOf(e)}
  {
    assert ContentList(a + [e] + b) == ContentList(a) + [ContentOf(e)] + ContentList(b);
    assert ContentList(a + b) == ContentList(a) + ContentList(b);
  }

  lemma ContentsOfCons(e: Entry, rows: seq<Entry>)
    ensures Contents([e] + rows) == multiset{ContentOf(e)} + Contents(rows)
  {
    assert ContentList([e] + rows) == [ContentOf(e)] + ContentList(rows);
  }

  lemma ContentsMember(rows: seq<Entry>, c: Content)
    ensures c in Contents(rows) <==> exists e :: e in rows && ContentOf(e) == c
  {
    if c in Contents(rows) {
      assert c in ContentList(rows);
      var i :| 0 <= i < |rows| && ContentList(rows)[i] == c;
      assert rows[i] in rows;
    }
    if e :| e in rows && ContentOf(e) == c {
      var i :| 0 <= i < |rows| && rows[i] == e;
      assert ContentList(rows)[i] == c;
    }
  }

  /** What is left of a group's complement depends on the contents only. */
  lemma {:induction false} ContentsWithout(rows: seq<Entry>, group: int, c: Content)
    ensures Contents(Without(rows, group))[c] == if c.splitGroupId == group then 0 else Contents(rows)[c]
  {
    if rows != [] {
      ContentsWithout(rows[1..], group, c);
      assert rows == [rows[0]] + rows[1..];
      ContentsOfCons(rows[0], rows[1..]);
      ContentsOfCons(rows[0], Without(rows[1..], group));
    }
  }

  lemma ContentsWithoutEqual(a: seq<Entry>, b: seq<Entry>, group: int)
    requires Contents(a) == Contents(b)
    ensures Contents(Without(a, group)) == Contents(Without(b, group))
  {
    forall c ensures Contents(Without(a, group))[c] == Contents(Without(b, group))[c] {
      ContentsWithout(a, group, c);
      ContentsWithout(b, group, c);
    }
  }

  // -------------------------------------------------------------------- swaps

  lemma SwapKeepsContents(g: GridState, a: int, b: int)
    ensures Contents(Swap(g, a, b).grid.rows) == Contents(g.rows)
  {
    if CanSwap(g.rows, a, b) {
      var list := ContentList(g.rows);
      assert ContentList(SwapRows(g.rows, a, b)) == list[a := list[b]][b := list[a]];
    }
  }

  /** The grid after the swaps `pairs`. */
  function Swaps(g: GridState, pairs: seq<(int, int)>): GridState
    decreases |pairs|
  {
    if pairs == [] then g else Swaps(Swap(g, pairs[0].0, pairs[0].1).grid, pairs[1..])
  }

  lemma {:induction false} SwapsKeep(g: GridState, pairs: seq<(int, int)>)
    requires Inv(g)
    ensures Inv(Swaps(g, pairs)) && Contents(Swaps(g, pairs).rows) == Contents(g.rows)
    ensures |Swaps(g, pairs).rows| == |g.rows|
    decreases |pairs|
  {
    if pairs != [] {
      SwapKeepsContents(g, pairs[0].0, pairs[0].1);
      if CanSwap(g.rows, pairs[0].0, pairs[0].1) {
        SwapKeepsInv(g, pairs[0].0, pairs[0].1);
      }
      SwapsKeep(Swap(g, pairs[0].0, pairs[0].1).grid, pairs[1..]);
    }
  }

  // ------------------------------------------------------------------- titles

  /** The marker a split appends is cut off again exactly when the title was not empty. */
  lemma MarkerComesOff(title: string, k: int, n: int)
    ensures StripMarker(title + TileMarker(k, n)) == title <==> title != ""
  {
    var marked := title + TileMarker(k, n);
    assert marked[|title|..|title| + 2] == " [";
    assert Matches(marked, " [", |title|);
    var p := LastIndexOf(marked, " [");
    assert marked[|title| + 1] == '[' && forall i :: |title| < i < |marked| ==> marked[i] != ' ';
    assert marked[p..p + 2][0] == marked[p];
    assert p == |title|;
    assert marked[..|title|] == title;
    assert TileMarker(k, n)[|TileMarker(k, n)| - 1] == ']';
  }

  // --------------------------------------------------------------- round trip

  /** A tile of an unsplit row that is merged again shows the row again, but for an empty title. */
  lemma MergedTileShowsOriginal(original: Entry, firstSlot: int, group: int, k: nat, n: int, direction: SplitDirection,
                                tile: Entry)
    requires original.splitCount == 1 && RowOk(original, firstSlot, group)
    requires ContentOf(tile) == ContentOf(Tile(original, firstSlot, group, k, n, direction))
    ensures ContentOf(MergedEntry(tile)) == ContentOf(original) <==> original.title != ""
  {
    MarkerComesOff(original.title, k, n);
  }

  /** In a reachable grid a split row can always be merged. */
  lemma SplitRowMerges(g: GridState, row: int)
    requires Inv(g) && 0 <= row < |g.rows| && g.rows[row].splitCount > 1
    ensures CanMerge(g.rows, row)
  {
    var e := g.rows[row];
    assert e in g.rows;
    assert HasTile(g.rows, e.cameraId, 0) && HasTile(g.rows, e.cameraId, 1);
    var i :| 0 <= i < |g.rows| && g.rows[i].cameraId == e.cameraId && g.rows[i].splitIndex == 0;
    var j :| 0 <= j < |g.rows| && g.rows[j].cameraId == e.cameraId && g.rows[j].splitIndex == 1;
    assert i != row ==> PairOk(g.rows[i], g.rows[row]);
    assert j != row ==> PairOk(g.rows[j], g.rows[row]);
    TwoMembersDropTwo(g.rows, i, j, e.splitGroupId);
  }

  lemma {:induction false} DropOne(rows: seq<Entry>, i: int, group: int)
    requires 0 <= i < |rows| && rows[i].splitGroupId == group
    ensures |Without(rows, group)| + 1 <= |rows|
  {
    if i > 0 {
      DropOne(rows[1..], i - 1, group);
    }
  }

  lemma {:induction false} TwoMembersDropTwo(rows: seq<Entry>, i: int, j: int, group: int)
    requires 0 <= i < |rows| && 0 <= j < |rows| && i != j
    requires rows[i].splitGroupId == group && rows[j].splitGroupId == group
    ensures |Without(rows, group)| + 2 <= |rows|
  {
    if i == 0 {
      DropOne(rows[1..], j - 1, group);
    } else if j == 0 {
      DropOne(rows[1..], i - 1, group);
    } else {
      TwoMembersDropTwo(rows[1..], i - 1, j - 1, group);
    }
  }

  /** Split a row, swap at will, merge at any of its tiles: the merge succeeds, and the multiset of
      contents is the one from before the split exactly when the row had a title. */
  lemma SplitSwapsMergeRestores(g: GridState, table: TileTable, row: int, n: nat, direction: SplitDirection, autoSplit: bool,
                                pairs: seq<(int, int)>, tileRow: int)
    requires Reachable(g, table) && CanSplit(g, row, n, direction)
    requires var mixed := Swaps(SplitGrid(g, row, n, direction, autoSplit), pairs);
             0 <= tileRow < |mixed.rows| && mixed.rows[tileRow].splitGroupId == g.nextSplitGroupId
    ensures var mixed := Swaps(SplitGrid(g, row, n, direction, autoSplit), pairs);
            Merge(mixed, tileRow).ok
            && (Contents(Merge(mixed, tileRow).grid.rows) == Contents(g.rows) <==> g.rows[row].title != "")
  {
    ReachableInv(g, table);
    SplitKeepsInv(g, row, n, direction, autoSplit);
    var split := SplitGrid(g, row, n, direction, autoSplit);
    var mixed := Swaps(split, pairs);
    var group := g.nextSplitGroupId;
    var original := g.rows[row];
    SwapsKeep(split, pairs);
    assert mixed.rows[tileRow] in mixed.rows && original in g.rows;
    SplitRowMerges(mixed, tileRow);

    // The merged row is some tile of the original.
    var p := FirstOf(mixed.rows, group);
    var k := TileBehind(g, row, n, direction, autoSplit, mixed, p);
    MergedTileShowsOriginal(original, g.nextSlotId, group, k, n, direction, mixed.rows[p]);

    // Both sides are the rows outside the group and one more.
    MergeContents(mixed.rows, group);
    ContentsWithoutEqual(mixed.rows, split.rows, group);
    SplitContents(g, row, n, direction, autoSplit);
    var outside := Contents(Without(split.rows, group));
    var m, o := ContentOf(MergedEntry(mixed.rows[p])), ContentOf(original);
    assert Contents(Merge(mixed, tileRow).grid.rows) == outside + multiset{m};
    assert Contents(g.rows) == outside + multiset{o};
    if m != o {
      assert (outside + multiset{m})[m] == outside[m] + 1;
      assert (outside + multiset{o})[m] == outside[m];
    }
  }

  lemma OldGroups(g: GridState)
    requires Inv(g)
    ensures forall e :: e in g.rows ==> e.splitGroupId != g.nextSplitGroupId
  {
  }

  lemma TileBehind(g: GridState, row: int, n: nat, direction: SplitDirection, autoSplit: bool, mixed: GridState, p: int)
    returns (k: nat)
    requires Inv(g) && CanSplit(g, row, n, direction)
    requires Contents(mixed.rows) == Contents(SplitGrid(g, row, n, direction, autoSplit).rows)
    requires 0 <= p < |mixed.rows| && mixed.rows[p].splitGroupId == g.nextSplitGroupId
    ensures k < n
    ensures ContentOf(mixed.rows[p]) == ContentOf(Tile(g.rows[row], g.nextSlotId, g.nextSplitGroupId, k, n, direction))
  {
    var split := SplitGrid(g, row, n, direction, autoSplit);
    var c := ContentOf(mixed.rows[p]);
    assert mixed.rows[p] in mixed.rows;
    ContentsMember(mixed.rows, c);
    ContentsMember(split.rows, c);
    var e :| e in split.rows && ContentOf(e) == c;
    k := TileOfNewGroup(g, row, n, direction, autoSplit, e);
  }

  lemma TileOfNewGroup(g: GridState, row: int, n: nat, direction: SplitDirection, autoSplit: bool, e: Entry)
    returns (k: nat)
    requires Inv(g) && CanSplit(g, row, n, direction)
    requires e in SplitGrid(g, row, n, direction, autoSplit).rows && e.splitGroupId == g.nextSplitGroupId
    ensures k < n && e == Tile(g.rows[row], g.nextSlotId, g.nextSplitGroupId, k, n, direction)
  {
    var tiles := Tiles(g.rows[row], g.nextSlotId, g.nextSplitGroupId, n, direction);
    OldGroups(g);
    assert e in tiles;
    k :| 0 <= k < n && tiles[k] == e;
  }

  lemma MergeContents(rows: seq<Entry>, group: int)
    requires FirstOf(rows, group) < |rows|
    ensures Contents(MergeRows(rows, group))
            == Contents(Without(rows, group)) + multiset{ContentOf(MergedEntry(rows[FirstOf(rows, group)]))}
  {
    var p := FirstOf(rows, group);
    var merged := MergedEntry(rows[p]);
    var post := Without(rows[p + 1..], group);
    assert Without(rows, group) == rows[..p] + post by {
      WithoutAroundFirst(rows, group);
    }
    assert MergeRows(rows, group) == rows[..p] + [merged] + post;
    ContentsOfInsert(rows[..p], merged, post);
  }

  lemma WithoutMiddle(pre: seq<Entry>, mid: seq<Entry>, post: seq<Entry>, group: int)
    requires forall e :: e in pre || e in post ==> e.splitGroupId != group
    requires forall e :: e in mid ==> e.splitGroupId == group
    ensures Without(pre + mid + post, group) == pre + post
  {
    WithoutConcat(pre + mid, post, group);
    WithoutAbsent(post, group);
    assert Without(pre + mid, group) == pre by {
      WithoutConcat(pre, mid, group);
      WithoutAbsent(pre, group);
      WithoutAll(mid, group);
    }
  }

  lemma OutsideSplit(g: GridState, row: int, n: nat, direction: SplitDirection, autoSplit: bool)
    requires Inv(g) && CanSplit(g, row, n, direction)
    ensures Without(SplitGrid(g, row, n, direction, autoSplit).rows, g.nextSplitGroupId)
         == g.rows[..row] + g.rows[row + 1..]
  {
    var tiles := Tiles(g.rows[row], g.nextSlotId, g.nextSplitGroupId, n, direction);
    OldGroups(g);
    WithoutMiddle(g.rows[..row], tiles, g.rows[row + 1..], g.nextSplitGroupId);
  }

  lemma SplitContents(g: GridState, row: int, n: nat, direction: SplitDirection, autoSplit: bool)
    requires Inv(g) && CanSplit(g, row, n, direction)
    ensures var outside := Without(SplitGrid(g, row, n, direction, autoSplit).rows, g.nextSplitGroupId);
            Contents(g.rows) == Contents(outside) + multiset{ContentOf(g.rows[row])}
  {
    var pre, post := g.rows[..row], g.rows[row + 1..];
    OutsideSplit(g, row, n, direction, autoSplit);
    assert g.rows == pre + [g.rows[row]] + post;
    ContentsOfInsert(pre, g.rows[row], post);
  }

  /** Without swaps in between even the order is restored: the merged row is where the original was,
      and every other row is untouched. */
  lemma SplitMergeKeepsOrder(g: GridState, table: TileTable, row: int, n: nat, direction: SplitDirection, autoSplit: bool, k: nat)
    requires Reachable(g, table) && CanSplit(g, row, n, direction) && k < n
    requires g.rows[row].title != ""
    ensures var back := Merge(SplitGrid(g, row, n, direction, autoSplit), row + k).grid.rows;
            |back| == |g.rows|
            && (forall i :: 0 <= i < |back| && i != row ==> back[i] == g.rows[i])
            && ContentOf(back[row]) == ContentOf(g.rows[row])
  {
    ReachableInv(g, table);
    var tile := Tile(g.rows[row], g.nextSlotId, g.nextSplitGroupId, 0, n, direction);
    AnyTileMerges(g, row, n, direction, autoSplit, k);
    assert g.rows[row] in g.rows;
    MergedTileShowsOriginal(g.rows[row], g.nextSlotId, g.nextSplitGroupId, 0, n, direction, tile);
    OneReplaced(g.rows, row, MergedEntry(tile));
  }

  lemma OneReplaced(rows: seq<Entry>, row: int, e: Entry)
    requires 0 <= row < |rows|
    ensures rows[..row] + [e] + rows[row + 1..] == rows[row := e]
  {
  }

  lemma AnyTileMerges(g: GridState, row: int, n: nat, direction: SplitDirection, autoSplit: bool, k: nat)
    requires Inv(g) && CanSplit(g, row, n, direction) && k < n
    ensures var tile := Tile(g.rows[row], g.nextSlotId, g.nextSplitGroupId, 0, n, direction);
            Merge(SplitGrid(g, row, n, direction, autoSplit), row + k).grid.rows
            == g.rows[..row] + [MergedEntry(tile)] + g.rows[row + 1..]
  {
    SplitKeepsInv(g, row, n, direction, autoSplit);
    var split := SplitGrid(g, row, n, direction, autoSplit);
    assert split.rows[row + k] == Tile(g.rows[row], g.nextSlotId, g.nextSplitGroupId, k, n, direction);
    SplitRowMerges(split, row + k);
    SplitThenMergeRows(g, row, n, direction, autoSplit);
  }

  lemma SplitThenMergeRows(g: GridState, row: int, n: nat, direction: SplitDirection, autoSplit: bool)
    requires Inv(g) && CanSplit(g, row, n, direction)
    ensures var rows := SplitGrid(g, row, n, direction, autoSplit).rows;
            var tile := Tile(g.rows[row], g.nextSlotId, g.nextSplitGroupId, 0, n, direction);
            && FirstOf(rows, g.nextSplitGroupId) == row < |rows|
            && MergeRows(rows, g.nextSplitGroupId) == g.rows[..row] + [MergedEntry(tile)] + g.rows[row + 1..]
  {
    var rows, group := SplitGrid(g, row, n, direction, autoSplit).rows, g.nextSplitGroupId;
    FirstTileIsAt(g, row, n, direction, autoSplit);
    WithoutAroundFirst(rows, group);
    OutsideSplit(g, row, n, direction, autoSplit);
    assert rows[..row] == g.rows[..row];
    SameTail(g.rows[..row], Without(rows[row + 1..], group), g.rows[row + 1..]);
  }

  lemma SameTail(a: seq<Entry>, b: seq<Entry>, c: seq<Entry>)
    requires a + b == a + c
    ensures b == c
  {
    assert (a + b)[|a|..] == b && (a + c)[|a|..] == c;
  }

  lemma FirstTileIsAt(g: GridState, row: int, n: nat, direction: SplitDirection, autoSplit: bool)
    requires Inv(g) && CanSplit(g, row, n, direction)
    ensures FirstOf(SplitGrid(g, row, n, direction, autoSplit).rows, g.nextSplitGroupId) == row
  {
    var rows := SplitGrid(g, row, n, direction, autoSplit).rows;
    OldGroups(g);
    assert forall i :: 0 <= i < row ==> rows[i] == g.rows[i] && g.rows[i] in g.rows;
    assert rows[row].splitGroupId == g.nextSplitGroupId;
  }
}
