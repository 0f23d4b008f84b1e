/**
 * The aerosol optical depth service: a dataset of per-location series loaded
 * from a fixed list of CSV files, and the two queries answered from it.
 */
module Aod {
  import opened Wrappers
  import opened Js

  type Path = string

  /**
   * One CSV row. The fields follow the parser's header list, which puts
   * longitude in the fourth column and latitude in the fifth.
   */
  datatype Reading = Reading(
    year: Value, month: Value, day: Value,
    longitude: Value, latitude: Value,
    aod: Value, aod3: Value, std3: Value)

  /** The rows of one file, in file order (oldest first). */
  type Series = seq<Reading>

  /** Loading stops at the first file whose read or parse is rejected. */
  datatype LoadError = Unreadable(path: Path)

  /**
   * A historical query reads `d[0].latitude` of every series; on an empty
   * series that read throws. `series` is the position of that series.
   */
  datatype QueryError = NoFirstReading(series: nat)

  /** GraphQL arguments of `getLatest`. */
  datatype LatestArgs = LatestArgs(lat: Value, long: Value)

  /** GraphQL arguments of `getHistorical`. */
  datatype HistoricalArgs = HistoricalArgs(lat: Value, long: Value, n: int)

  /**
   * Loads one series per file, awaiting each file in list order and appending
   * its series to the dataset, which starts empty. The parser is the
   * parameter `loadData`; `None` stands for a rejected read, which aborts the
   * whole load.
   */
  method LoadAllFiles(files: seq<Path>, loadData: Path -> Option<Series>)
    returns (r: Result<seq<Series>, LoadError>)
    ensures r.Success? <==> forall i :: 0 <= i < |files| ==> loadData(files[i]).Some?
    ensures r.Success? ==> |r.value| == |files|
    ensures r.Success? ==> forall i :: 0 <= i < |files| ==> loadData(files[i]) == Some(r.value[i])
    ensures r.Failure? ==>
      exists k :: 0 <= k < |files| && files[k] == r.error.path && loadData(files[k]).None?
        && forall i :: 0 <= i < k ==> loadData(files[i]).Some?
  {
    var data: seq<Series> := [];
    var i := 0;
    while i < |files|
      invariant 0 <= i <= |files|
      invariant |data| == i
      invariant forall j :: 0 <= j < i ==> loadData(files[j]) == Some(data[j])
    {
      var loaded := loadData(files[i]);
      if loaded.None? {
        return Failure(Unreadable(files[i]));
      }
      data := data + [loaded.value];
      i := i + 1;
    }
    return Success(data);
  }

  /** For every series, in dataset order, the read of its last element. */
  function GetLatest(data: seq<Series>): (latest: seq<Option<Reading>>)
    ensures |latest| == |data|
    ensures forall i :: 0 <= i < |data| && |data[i]| > 0 ==> latest[i] == Some(data[i][|data[i]| - 1])
    ensures forall i :: 0 <= i < |data| && |data[i]| == 0 ==> latest[i].None?
  {
    seq(|data|, i requires 0 <= i < |data| => At(data[i], |data[i]| - 1))
  }

  /** Two series `[r1, r2]` and `[r3]` have the latest readings `r2` and `r3`. */
  lemma LatestExample(r1: Reading, r2: Reading, r3: Reading)
    ensures GetLatest([[r1, r2], [r3]]) == [Some(r2), Some(r3)]
  {
  }

  /** The `getLatest` resolver: its coordinates are accepted and not used. */
  function ResolveGetLatest(data: seq<Series>, args: LatestArgs): (latest: seq<Option<Reading>>)
    ensures |latest| == |data|
  {
    GetLatest(data)
  }

  /** The `getLatest` resolver answers the same for every pair of coordinates. */
  lemma LatestIgnoresArguments(data: seq<Series>, a: LatestArgs, b: LatestArgs)
    ensures ResolveGetLatest(data, a) == ResolveGetLatest(data, b)
  {
  }

  /** Whether the first reading of a non-empty series lies at `(lat, long)`. */
  predicate StartsAt(d: Series, lat: Value, long: Value)
    requires |d| > 0
  {
    d[0].latitude == lat && d[0].longitude == long
  }

  predicate NoEmptySeries(data: seq<Series>) {
    forall i :: 0 <= i < |data| ==> |data[i]| > 0
  }

  /**
   * The positions, in increasing order, of the series whose first reading lies
   * at `(lat, long)`.
   */
  function MatchIndices(data: seq<Series>, lat: Value, long: Value): (ix: seq<nat>)
    requires NoEmptySeries(data)
    ensures forall j :: 0 <= j < |ix| ==> ix[j] < |data|
    ensures forall j, k :: 0 <= j < k < |ix| ==> ix[j] < ix[k]
    ensures forall i :: 0 <= i < |data| ==> (i in ix <==> StartsAt(data[i], lat, long))
  {
    if |data| == 0 then []
    else
      var ix := MatchIndices(data[..|data| - 1], lat, long);
      if StartsAt(data[|data| - 1], lat, long) then ix + [|data| - 1] else ix
  }

  /**
   * The `n` reads `d[d.length - (n - i)]` for `i` from 0 below `n`: empty when
   * `n <= 0`, and led by `undefined` reads where `n` exceeds the series.
   */
  function Window(d: Series, n: int): (w: seq<Option<Reading>>)
    ensures |w| == if n > 0 then n else 0
    ensures forall i :: 0 <= i < |w| ==> (w[i].None? <==> i < n - |d|)
    ensures forall i :: 0 <= i < |w| && n - |d| <= i ==> w[i] == Some(d[|d| - n + i])
  {
    if n <= 0 then []
    else
      var w := seq(n, i requires 0 <= i < n => At(d, |d| - (n - i)));
      assert forall i :: 0 <= i < n ==> w[i] == At(d, |d| - (n - i));
      w
  }

  /** Within the series, the window is its last `n` readings, oldest first. */
  lemma WindowWithinSeries(d: Series, n: int)
    requires 0 <= n <= |d|
    ensures Window(d, n) == Defined(d[|d| - n..])
  {
  }

  /**
   * Beyond the series, the window is `n - |d|` undefined reads followed by the
   * whole series in order.
   */
  lemma WindowBeyondSeries(d: Series, n: int)
    requires n > |d|
    ensures Window(d, n) == Undefined(n - |d|) + Defined(d)
  {
  }

  /**
   * For every series, in dataset order, whose first reading lies at
   * `(lat, long)`, its window of `n` reads. An empty series anywhere makes the
   * first-reading access throw.
   */
  function GetHistorical(data: seq<Series>, lat: Value, long: Value, n: int)
    : (r: Result<seq<seq<Option<Reading>>>, QueryError>)
    ensures r.Success? <==> NoEmptySeries(data)
    ensures r.Failure? ==>
      var k := r.error.series;
      k < |data| && |data[k]| == 0 && forall i :: 0 <= i < k ==> |data[i]| > 0
    ensures r.Success? ==> forall w :: w in r.value ==> |w| == if n > 0 then n else 0
  {
    if |data| == 0 then Success([])
    else
      var d := data[|data| - 1];
      match GetHistorical(data[..|data| - 1], lat, long, n)
      case Failure(e) => Failure(e)
      case Success(result) =>
        if |d| == 0 then Failure(NoFirstReading(|data| - 1))
        else if StartsAt(d, lat, long) then Success(result + [Window(d, n)])
        else Success(result)
  }

  /**
   * A successful historical query holds exactly one window per series whose
   * first reading lies at `(lat, long)`, in dataset order, and nothing else.
   */
  lemma {:induction false} HistoricalSelectsMatches(data: seq<Series>, lat: Value, long: Value, n: int)
    requires GetHistorical(data, lat, long, n).Success?
    ensures NoEmptySeries(data)
    ensures var r := GetHistorical(data, lat, long, n).value;
      var ix := MatchIndices(data, lat, long);
      |r| == |ix| && forall j :: 0 <= j < |ix| ==> r[j] == Window(data[ix[j]], n)
  {
    if |data| > 0 {
      var prefix := data[..|data| - 1];
      var d := data[|data| - 1];
      assert GetHistorical(prefix, lat, long, n).Success?;
      HistoricalSelectsMatches(prefix, lat, long, n);
      var r := GetHistorical(data, lat, long, n).value;
      var r0 := GetHistorical(prefix, lat, long, n).value;
      var ix := MatchIndices(data, lat, long);
      var ix0 := MatchIndices(prefix, lat, long);
      if StartsAt(d, lat, long) {
        assert r == r0 + [Window(d, n)];
        assert ix == ix0 + [|data| - 1];
      } else {
        assert r == r0;
        assert ix == ix0;
      }
      forall j | 0 <= j < |ix0|
        ensures r[j] == Window(data[ix[j]], n)
      {
        assert prefix[ix0[j]] == data[ix0[j]];
      }
    }
  }

  /**
   * The `getHistorical` resolver passes its three arguments on: it answers one
   * window per series whose first reading lies at the queried coordinates.
   */
  function ResolveGetHistorical(data: seq<Series>, args: HistoricalArgs)
    : (r: Result<seq<seq<Option<Reading>>>, QueryError>)
    ensures r.Success? <==> NoEmptySeries(data)
    ensures r.Success? ==> forall w :: w in r.value ==> |w| == if args.n > 0 then args.n else 0
    ensures r.Success? ==>
      var ix := MatchIndices(data, args.lat, args.long);
      |r.value| == |ix| && forall j :: 0 <= j < |ix| ==> r.value[j] == Window(data[ix[j]], args.n)
  {
    if NoEmptySeries(data) then
      HistoricalSelectsMatches(data, args.lat, args.long, args.n);
      GetHistorical(data, args.lat, args.long, args.n)
    else
      GetHistorical(data, args.lat, args.long, args.n)
  }

  /**
   * Despite its comment, the `getHistorical` resolver does filter by its
   * coordinates: a one-series dataset answers one window at the series'
   * location and none elsewhere.
   */
  lemma HistoricalUsesCoordinates(d: Series, n: int, elsewhere: Value)
    requires |d| > 0 && elsewhere != d[0].latitude
    ensures ResolveGetHistorical([d], HistoricalArgs(d[0].latitude, d[0].longitude, n)) == Success([Window(d, n)])
    ensures ResolveGetHistorical([d], HistoricalArgs(elsewhere, d[0].longitude, n)) == Success([])
  {
    assert [d][..0] == [];
    assert GetHistorical([], d[0].latitude, d[0].longitude, n) == Success([]);
    assert StartsAt(d, d[0].latitude, d[0].longitude);
    assert [] + [Window(d, n)] == [Window(d, n)];
    assert GetHistorical([], elsewhere, d[0].longitude, n) == Success([]);
  }
}
