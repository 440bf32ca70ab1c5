/** The layer flattener `get_gdb_layers`: every container path is listed (the
    listing is an oracle outcome per call), the listings are collected in a
    dictionary keyed by path, and the dictionary is flattened into one row per
    layer, or a single row without a layer when the listing failed or was empty.

    A Python dictionary keeps its keys in first-insertion order and an assignment
    to a present key replaces the value in place; the dictionary is modelled as a
    sequence of entries with exactly that behaviour. */
module Layers {
  import opened Outcomes
  import opened Paths

  /** One row of the result: the container and one of its layers, or None. */
  datatype LayerRow = LayerRow(geodatabase: string, layer: Option<string>)

  /** One dictionary entry: a container path and the layers recorded for it. */
  datatype Listing = Listing(path: string, layers: seq<string>)

  /** The keys of the dictionary, in iteration order. */
  function Keys(d: seq<Listing>): (ks: seq<string>)
    ensures |ks| == |d|
    ensures forall i :: 0 <= i < |d| ==> ks[i] == d[i].path
  {
    seq(|d|, i requires 0 <= i < |d| => d[i].path)
  }

  /** No string occurs twice. */
  predicate Distinct(xs: seq<string>) {
    forall i, j :: 0 <= i < j < |xs| ==> xs[i] != xs[j]
  }

  /** `d.get(path)`. */
  function Lookup(d: seq<Listing>, path: string): Option<seq<string>>
    decreases |d|
  {
    if |d| == 0 then None
    else if d[0].path == path then Some(d[0].layers)
    else Lookup(d[1..], path)
  }

  /** `d[path] = layers`: a present key keeps its position and gets the new value;
      a new key goes to the end. */
  function Store(d: seq<Listing>, path: string, layers: seq<string>): (r: seq<Listing>)
    ensures Keys(r) == if path in Keys(d) then Keys(d) else Keys(d) + [path]
    ensures path !in Keys(d) ==> r == d + [Listing(path, layers)]
    decreases |d|
  {
    if |d| == 0 then [Listing(path, layers)]
    else
      assert d == [d[0]] + d[1..];
      KeysCons(d[0], d[1..]);
      if d[0].path == path then
        KeysCons(Listing(path, layers), d[1..]);
        [Listing(path, layers)] + d[1..]
      else
        var rest := Store(d[1..], path, layers);
        KeysCons(d[0], rest);
        assert [d[0]] + (d[1..] + [Listing(path, layers)]) == d + [Listing(path, layers)];
        [d[0]] + rest
  }

  /** The keys of an entry followed by more entries. */
  lemma KeysCons(x: Listing, rest: seq<Listing>)
    ensures Keys([x] + rest) == [x.path] + Keys(rest)
  {
  }

  /** After `d[path] = layers`, looking up `path` gives the new layers and every
      other lookup is unchanged. */
  lemma {:induction false} StoreLookup(d: seq<Listing>, path: string, layers: seq<string>)
    ensures Lookup(Store(d, path, layers), path) == Some(layers)
    ensures forall q :: q != path ==> Lookup(Store(d, path, layers), q) == Lookup(d, q)
    decreases |d|
  {
    if |d| > 0 && d[0].path != path {
      var rest := Store(d[1..], path, layers);
      StoreLookup(d[1..], path, layers);
      assert ([d[0]] + rest)[1..] == rest;
    }
  }

  /** What the dictionary records for one listing: the layers, or the empty list
      when `fiona.listlayers` raised. */
  function ListingLayers(outcome: Result<seq<string>>): seq<string> {
    if outcome.Ok? then outcome.value else []
  }

  /** The dictionary after the first loop, `outcomes[i]` being what listing
      `paths[i]` produced. */
  function LayersDict(paths: seq<string>, outcomes: seq<Result<seq<string>>>): seq<Listing>
    requires |paths| == |outcomes|
    decreases |paths|
  {
    if |paths| == 0 then []
    else Store(LayersDict(DropLast(paths), DropLast(outcomes)), Last(paths), ListingLayers(Last(outcomes)))
  }

  /** The rows of one dictionary entry. */
  function RowsFor(l: Listing): (rows: seq<LayerRow>)
    ensures |rows| == if |l.layers| == 0 then 1 else |l.layers|
  {
    if |l.layers| == 0 then [LayerRow(l.path, None)]
    else seq(|l.layers|, j requires 0 <= j < |l.layers| => LayerRow(l.path, Some(l.layers[j])))
  }

  /** The second loop: the entries' rows, entry after entry. */
  function Flatten(d: seq<Listing>): seq<LayerRow>
    decreases |d|
  {
    if |d| == 0 then [] else Flatten(DropLast(d)) + RowsFor(Last(d))
  }

  /** The first loop of `get_gdb_layers`: each path's listing stored under it. */
  method CollectListings(paths: seq<string>, outcomes: seq<Result<seq<string>>>) returns (d: seq<Listing>)
    requires |paths| == |outcomes|
    ensures d == LayersDict(paths, outcomes)
  {
    d := [];
    for i := 0 to |paths|
      invariant d == LayersDict(paths[..i], outcomes[..i])
    {
      assert DropLast(paths[..i + 1]) == paths[..i] && DropLast(outcomes[..i + 1]) == outcomes[..i];
      d := Store(d, paths[i], ListingLayers(outcomes[i]));
    }
    assert paths[..|paths|] == paths && outcomes[..|outcomes|] == outcomes;
  }

  /** The rows appended for one dictionary entry. */
  method EntryRows(entry: Listing) returns (rows: seq<LayerRow>)
    ensures rows == RowsFor(entry)
  {
    if |entry.layers| > 0 {
      rows := [];
      for j := 0 to |entry.layers|
        invariant rows == RowsFor(entry)[..j]
      {
        rows := rows + [LayerRow(entry.path, Some(entry.layers[j]))];
      }
    } else {
      rows := [LayerRow(entry.path, None)];
    }
  }

  /** `get_gdb_layers(gdb_paths)`: collect the listings, then flatten the
      dictionary entry by entry. */
  method GetGdbLayers(paths: seq<string>, outcomes: seq<Result<seq<string>>>) returns (rows: seq<LayerRow>)
    requires |paths| == |outcomes|
    ensures rows == Flatten(LayersDict(paths, outcomes))
  {
    var d := CollectListings(paths, outcomes);
    rows := [];
    for e := 0 to |d|
      invariant rows == Flatten(d[..e])
    {
      assert DropLast(d[..e + 1]) == d[..e];
      var entryRows := EntryRows(d[e]);
      rows := rows + entryRows;
    }
    assert d[..|d|] == d;
  }

  /** The paths with later repetitions removed, in first-occurrence order. */
  function FirstOccurrences(paths: seq<string>): seq<string>
    decreases |paths|
  {
    if |paths| == 0 then []
    else
      var init := FirstOccurrences(DropLast(paths));
      if Last(paths) in init then init else init + [Last(paths)]
  }

  /** What the last listing of `path` recorded, if `path` was listed at all. */
  function LastListing(paths: seq<string>, outcomes: seq<Result<seq<string>>>, path: string): Option<seq<string>>
    requires |paths| == |outcomes|
    decreases |paths|
  {
    if |paths| == 0 then None
    else if Last(paths) == path then Some(ListingLayers(Last(outcomes)))
    else LastListing(DropLast(paths), DropLast(outcomes), path)
  }

  /** Repeated container paths collapse: the dictionary holds each path once, in
      order of first appearance, with the layers of its LAST listing. */
  lemma {:induction false} RepeatedPathsCollapse(paths: seq<string>, outcomes: seq<Result<seq<string>>>)
    requires |paths| == |outcomes|
    ensures Keys(LayersDict(paths, outcomes)) == FirstOccurrences(paths)
    ensures forall q :: Lookup(LayersDict(paths, outcomes), q) == LastListing(paths, outcomes, q)
    decreases |paths|
  {
    if |paths| > 0 {
      RepeatedPathsCollapse(DropLast(paths), DropLast(outcomes));
      StoreLookup(LayersDict(DropLast(paths), DropLast(outcomes)), Last(paths), ListingLayers(Last(outcomes)));
    }
  }

  /** Each path kept once: the first occurrences are distinct. */
  lemma {:induction false} FirstOccurrencesDistinct(paths: seq<string>)
    ensures Distinct(FirstOccurrences(paths))
    ensures forall q :: q in FirstOccurrences(paths) <==> q in paths
    decreases |paths|
  {
    if |paths| > 0 {
      FirstOccurrencesDistinct(DropLast(paths));
      assert forall q :: q in paths <==> q in DropLast(paths) || q == Last(paths);
    }
  }

  /** The rows produced for the i-th input, read on its own. */
  function InputRows(path: string, outcome: Result<seq<string>>): seq<LayerRow> {
    RowsFor(Listing(path, ListingLayers(outcome)))
  }

  /** The rows of all inputs, input after input. */
  function AllInputRows(paths: seq<string>, outcomes: seq<Result<seq<string>>>): seq<LayerRow>
    requires |paths| == |outcomes|
    decreases |paths|
  {
    if |paths| == 0 then []
    else AllInputRows(DropLast(paths), DropLast(outcomes)) + InputRows(Last(paths), Last(outcomes))
  }

  /** `sum(max(1, len(layers)) for each input)`. */
  function RowTotal(outcomes: seq<Result<seq<string>>>): nat
    decreases |outcomes|
  {
    if |outcomes| == 0 then 0
    else
      var n := |ListingLayers(Last(outcomes))|;
      RowTotal(DropLast(outcomes)) + (if n == 0 then 1 else n)
  }

  /** The inputs as dictionary entries, in input order. */
  function Entries(paths: seq<string>, outcomes: seq<Result<seq<string>>>): (d: seq<Listing>)
    requires |paths| == |outcomes|
    ensures Keys(d) == paths
    decreases |paths|
  {
    if |paths| == 0 then []
    else
      var init := Entries(DropLast(paths), DropLast(outcomes));
      assert Keys(init + [Listing(Last(paths), ListingLayers(Last(outcomes)))]) == Keys(init) + [Last(paths)];
      init + [Listing(Last(paths), ListingLayers(Last(outcomes)))]
  }

  /** With distinct paths the dictionary is the inputs in order. */
  lemma {:induction false} DistinctDict(paths: seq<string>, outcomes: seq<Result<seq<string>>>)
    requires |paths| == |outcomes| && Distinct(paths)
    ensures LayersDict(paths, outcomes) == Entries(paths, outcomes)
    decreases |paths|
  {
    if |paths| > 0 {
      var init := DropLast(paths);
      assert Distinct(init);
      DistinctDict(init, DropLast(outcomes));
      assert Keys(LayersDict(init, DropLast(outcomes))) == init;
      assert Last(paths) !in init;
    }
  }

  /** Flattening the entries in input order gives the inputs' rows in input order. */
  lemma {:induction false} FlattenEntries(paths: seq<string>, outcomes: seq<Result<seq<string>>>)
    requires |paths| == |outcomes|
    ensures Flatten(Entries(paths, outcomes)) == AllInputRows(paths, outcomes)
    decreases |paths|
  {
    if |paths| > 0 {
      var init := Entries(DropLast(paths), DropLast(outcomes));
      assert DropLast(Entries(paths, outcomes)) == init;
      FlattenEntries(DropLast(paths), DropLast(outcomes));
    }
  }

  /** Rows contributed by the inputs add up to one per layer, at least one per input. */
  lemma {:induction false} AllInputRowsCount(paths: seq<string>, outcomes: seq<Result<seq<string>>>)
    requires |paths| == |outcomes|
    ensures |AllInputRows(paths, outcomes)| == RowTotal(outcomes)
    decreases |paths|
  {
    if |paths| > 0 {
      AllInputRowsCount(DropLast(paths), DropLast(outcomes));
    }
  }

  /** For distinct container paths the rows come in input order, each input giving
      one row per layer of a non-empty listing and one None row otherwise, so
      there are `sum(max(1, len(layers)))` rows. */
  lemma LayerRowsInInputOrder(paths: seq<string>, outcomes: seq<Result<seq<string>>>)
    requires |paths| == |outcomes| && Distinct(paths)
    ensures Flatten(LayersDict(paths, outcomes)) == AllInputRows(paths, outcomes)
    ensures |Flatten(LayersDict(paths, outcomes))| == RowTotal(outcomes)
  {
    DistinctDict(paths, outcomes);
    FlattenEntries(paths, outcomes);
    AllInputRowsCount(paths, outcomes);
  }

  /** The rows of one input: a layer row for each listed layer, and a None row
      exactly when the listing raised or came back empty. */
  lemma InputRowsContents(path: string, outcome: Result<seq<string>>, row: LayerRow)
    ensures row in InputRows(path, outcome) <==>
            row.geodatabase == path &&
            (if outcome.Ok? && |outcome.value| > 0
             then row.layer.Some? && row.layer.value in outcome.value
             else row.layer == None)
  {
    var layers := ListingLayers(outcome);
    if row in InputRows(path, outcome) && |layers| > 0 {
      var j :| 0 <= j < |layers| && InputRows(path, outcome)[j] == row;
    }
    if outcome.Ok? && |outcome.value| > 0 && row.geodatabase == path && row.layer.Some? && row.layer.value in outcome.value {
      var j :| 0 <= j < |layers| && layers[j] == row.layer.value;
      assert InputRows(path, outcome)[j] == row;
    }
  }
}
