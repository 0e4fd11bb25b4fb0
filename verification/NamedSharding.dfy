/** N-dimensional rank layouts with named axes: the coordinates of a rank, the ranks at given
    coordinates, and what fixing axes does. An array is its shape and its entries in row-major order. */
module NamedShardings {
  import opened Wrappers
  import opened Arith
  import opened Seqs

  // ---------------------------------------------------------------- coordinates of a row-major array

  function Size(shape: seq<nat>): nat {
    if |shape| == 0 then 1 else Times(Size(shape[..|shape| - 1]), shape[|shape| - 1])
  }

  ghost predicate InShape(shape: seq<nat>, coord: seq<nat>) {
    |coord| == |shape| && forall a :: 0 <= a < |shape| ==> coord[a] < shape[a]
  }

  function Offset(shape: seq<nat>, coord: seq<nat>): nat
    requires |coord| == |shape|
  {
    if |shape| == 0 then 0
    else
      var n := |shape| - 1;
      Times(Offset(shape[..n], coord[..n]), shape[n]) + coord[n]
  }

  function Coord(shape: seq<nat>, offset: nat): (r: seq<nat>)
    requires offset < Size(shape)
    ensures InShape(shape, r)
  {
    if |shape| == 0 then []
    else
      var n := |shape| - 1;
      QuotientFits(offset, Size(shape[..n]), shape[n]);
      Coord(shape[..n], offset / shape[n]) + [offset % shape[n]]
  }

  lemma QuotientFits(offset: nat, n: nat, d: nat)
    requires offset < Times(n, d)
    ensures d > 0 && 0 <= offset / d < n
  {
    TimesIsProduct(n, d);
    if d == 0 {
      TimesZero(n);
    } else {
      QuotientBelow(offset, n, d);
    }
  }

  lemma {:induction false} TimesZero(n: nat)
    ensures Times(n, 0) == 0
  {
    if n > 0 {
      TimesZero(n - 1);
    }
  }

  lemma {:induction false} OffsetFits(shape: seq<nat>, coord: seq<nat>)
    requires InShape(shape, coord)
    ensures Offset(shape, coord) < Size(shape)
  {
    if |shape| > 0 {
      var n := |shape| - 1;
      OffsetFits(shape[..n], coord[..n]);
      TimesFits(shape[n], Size(shape[..n]), Offset(shape[..n], coord[..n]));
    }
  }

  // Coordinates and offsets are inverse to each other.
  lemma {:induction false} CoordOfOffset(shape: seq<nat>, coord: seq<nat>)
    requires InShape(shape, coord)
    ensures Offset(shape, coord) < Size(shape)
    ensures Coord(shape, Offset(shape, coord)) == coord
  {
    OffsetFits(shape, coord);
    if |shape| > 0 {
      var n := |shape| - 1;
      CoordOfOffset(shape[..n], coord[..n]);
      SplitOffset(Offset(shape[..n], coord[..n]), shape[n], coord[n]);
    }
  }

  lemma SplitOffset(q: nat, d: nat, r: nat)
    requires r < d
    ensures (Times(q, d) + r) / d == q && (Times(q, d) + r) % d == r
  {
    TimesIsProduct(q, d);
    DivModUnique(Times(q, d) + r, d, q, r);
  }

  lemma {:induction false} OffsetOfCoord(shape: seq<nat>, offset: nat)
    requires offset < Size(shape)
    ensures Offset(shape, Coord(shape, offset)) == offset
  {
    if |shape| > 0 {
      var n := |shape| - 1;
      QuotientFits(offset, Size(shape[..n]), shape[n]);
      OffsetOfCoord(shape[..n], offset / shape[n]);
      TimesIsProduct(offset / shape[n], shape[n]);
      assert Coord(shape, offset)[..n] == Coord(shape[..n], offset / shape[n]);
    }
  }

  // The number of entries is the product of the axes.
  lemma {:induction false} SizeOfSplit(a: seq<nat>, b: seq<nat>)
    ensures Size(a + b) == Size(a) * Size(b)
    ensures Size([]) == 1 && forall d: nat :: Size([d]) == d
  {
    forall d: nat ensures Size([d]) == d {
      assert [d][..0] == [];
      TimesIsProduct(1, d);
    }
    if |b| == 0 {
      assert a + b == a;
    } else {
      var n := |b| - 1;
      SizeOfSplit(a, b[..n]);
      assert (a + b)[..|a + b| - 1] == a + b[..n];
      TimesIsProduct(Size(a + b[..n]), b[n]);
      TimesIsProduct(Size(b[..n]), b[n]);
      Regroup(Size(a), Size(b[..n]), b[n]);
    }
  }

  lemma Regroup(x: nat, y: nat, z: nat)
    ensures (x * y) * z == x * (y * z)
  {
  }

  // Row-major order: one step along an axis passes over all the entries of the later axes, and the
  // first entry has all coordinates 0.
  lemma {:induction false} StepAlongAxis(shape: seq<nat>, coord: seq<nat>, a: nat)
    requires |coord| == |shape| && a < |shape|
    ensures Offset(shape, coord[a := coord[a] + 1]) == Offset(shape, coord) + Size(shape[a + 1..])
  {
    var n := |shape| - 1;
    var next := coord[a := coord[a] + 1];
    SizeOfSplit([], []);
    if a == n {
      assert next[..n] == coord[..n] && shape[a + 1..] == [];
    } else {
      StepAlongAxis(shape[..n], coord[..n], a);
      assert next[..n] == coord[..n][a := coord[a] + 1];
      var later := shape[a + 1..];
      assert later[..|later| - 1] == shape[..n][a + 1..] && later[|later| - 1] == shape[n];
      TimesOfSum(Offset(shape[..n], coord[..n]), Size(shape[..n][a + 1..]), shape[n]);
    }
  }

  lemma TimesOfSum(x: nat, y: nat, k: nat)
    ensures Times(x + y, k) == Times(x, k) + Times(y, k)
  {
    TimesIsProduct(x + y, k);
    TimesIsProduct(x, k);
    TimesIsProduct(y, k);
  }

  lemma {:induction false} FirstEntry(shape: seq<nat>)
    ensures Offset(shape, seq(|shape|, _ => 0)) == 0
  {
    if |shape| > 0 {
      var n := |shape| - 1;
      FirstEntry(shape[..n]);
      assert seq<nat>(|shape|, _ => 0)[..n] == seq<nat>(n, _ => 0);
      assert Times(0, shape[n]) == 0;
    }
  }

  // ---------------------------------------------------------------- shardings

  datatype ShardingError = NamesMismatch | DuplicateRanks | InvalidName | OutOfBounds | NotFound

  // _layout as its shape and its ranks in row-major order, and _names.
  datatype NamedSharding = NamedSharding(shape: seq<nat>, ranks: seq<int>, names: seq<string>)

  ghost predicate Valid(s: NamedSharding) {
    && |s.ranks| == Size(s.shape)
    && |s.names| == |s.shape|
    && Distinct(s.ranks)
  }

  // The constructor's checks.
  method Create(shape: seq<nat>, ranks: seq<int>, names: seq<string>) returns (r: Result<NamedSharding, ShardingError>)
    requires |ranks| == Size(shape)
    ensures r.Ok? <==> |names| == |shape| && Distinct(ranks)
    ensures r.Ok? ==> r.value == NamedSharding(shape, ranks, names) && Valid(r.value)
    ensures r.Err? ==> r.error == if |names| != |shape| then NamesMismatch else DuplicateRanks
  {
    if |shape| != |names| {
      return Err(NamesMismatch);
    }
    for j := 0 to |ranks|
      invariant forall a, b :: 0 <= a < b < j ==> ranks[a] != ranks[b]
    {
      if ranks[j] in ranks[..j] {
        return Err(DuplicateRanks);
      }
    }
    return Ok(NamedSharding(shape, ranks, names));
  }

  function At(s: NamedSharding, coord: seq<nat>): int
    requires Valid(s) && InShape(s.shape, coord)
  {
    OffsetFits(s.shape, coord);
    s.ranks[Offset(s.shape, coord)]
  }

  // _name_to_axis: the last axis of a name.
  function AxisOf(names: seq<string>, name: string): (r: Option<nat>)
    ensures r.Some? <==> name in names
    ensures r.Some? ==> r.value < |names| && names[r.value] == name
  {
    if |names| == 0 then None
    else if names[|names| - 1] == name then Some(|names| - 1)
    else AxisOf(names[..|names| - 1], name)
  }

  lemma {:induction false} AxisOfDistinct(names: seq<string>, a: nat)
    requires Distinct(names) && a < |names|
    ensures AxisOf(names, names[a]) == Some(a)
  {
    if a < |names| - 1 {
      AxisOfDistinct(names[..|names| - 1], a);
      assert names[..|names| - 1][a] == names[a];
    }
  }

  // ---------------------------------------------------------------- fixing axes

  // What remains of a list of axes when some are fixed.
  function Rest<X>(xs: seq<X>, fixed: seq<Option<nat>>): seq<X>
    requires |xs| == |fixed|
  {
    if |xs| == 0 then []
    else
      var n := |xs| - 1;
      Rest(xs[..n], fixed[..n]) + if fixed[n].Some? then [] else [xs[n]]
  }

  function FreeAxes(fixed: seq<Option<nat>>): nat {
    if |fixed| == 0 then 0 else FreeAxes(fixed[..|fixed| - 1]) + if fixed[|fixed| - 1].Some? then 0 else 1
  }

  // The full coordinates: fixed axes at their index, the others from the given ones.
  function Expand(fixed: seq<Option<nat>>, coord: seq<nat>): (r: seq<nat>)
    requires |coord| == FreeAxes(fixed)
    ensures |r| == |fixed|
  {
    if |fixed| == 0 then []
    else
      var n := |fixed| - 1;
      if fixed[n].Some? then Expand(fixed[..n], coord) + [fixed[n].value]
      else Expand(fixed[..n], coord[..|coord| - 1]) + [coord[|coord| - 1]]
  }

  ghost predicate FitsShape(shape: seq<nat>, fixed: seq<Option<nat>>) {
    |fixed| == |shape| && forall a :: 0 <= a < |shape| && fixed[a].Some? ==> fixed[a].value < shape[a]
  }

  lemma {:induction false} RestLength<X>(xs: seq<X>, fixed: seq<Option<nat>>)
    requires |xs| == |fixed|
    ensures |Rest(xs, fixed)| == FreeAxes(fixed)
  {
    if |xs| > 0 {
      RestLength(xs[..|xs| - 1], fixed[..|xs| - 1]);
    }
  }

  lemma InShapeSnoc(shape: seq<nat>, coord: seq<nat>)
    requires |coord| == |shape| > 0
    ensures var n := |shape| - 1;
            InShape(shape, coord) <==> InShape(shape[..n], coord[..n]) && coord[n] < shape[n]
  {
  }

  lemma RestSnoc<X>(xs: seq<X>, fixed: seq<Option<nat>>)
    requires |xs| == |fixed| > 0
    ensures var n := |xs| - 1;
            var before := Rest(xs[..n], fixed[..n]);
            && |Rest(xs, fixed)| == FreeAxes(fixed) && |before| == FreeAxes(fixed[..n])
            && (fixed[n].Some? ==> Rest(xs, fixed) == before)
            && (fixed[n].None? ==> Rest(xs, fixed) == before + [xs[n]] && Rest(xs, fixed)[..|before|] == before)
  {
    RestLength(xs, fixed);
    RestLength(xs[..|xs| - 1], fixed[..|xs| - 1]);
  }

  lemma ExpandSnoc(fixed: seq<Option<nat>>, coord: seq<nat>, x: nat)
    requires |fixed| > 0 && fixed[|fixed| - 1].None? && |coord| == FreeAxes(fixed[..|fixed| - 1])
    ensures FreeAxes(fixed) == |coord| + 1
    ensures Expand(fixed, coord + [x]) == Expand(fixed[..|fixed| - 1], coord) + [x]
  {
    assert (coord + [x])[..|coord|] == coord;
  }

  lemma ExpandFixed(fixed: seq<Option<nat>>, coord: seq<nat>)
    requires |fixed| > 0 && fixed[|fixed| - 1].Some? && |coord| == FreeAxes(fixed[..|fixed| - 1])
    ensures FreeAxes(fixed) == |coord|
    ensures Expand(fixed, coord) == Expand(fixed[..|fixed| - 1], coord) + [fixed[|fixed| - 1].value]
  {
  }

  lemma InShapeLength(shape: seq<nat>, coord: seq<nat>)
    requires InShape(shape, coord)
    ensures |coord| == |shape|
  {
  }

  lemma NoAxes(coord: seq<nat>)
    requires |coord| == 0
    ensures FreeAxes([]) == 0 && InShape([], Expand([], coord))
  {
  }

  lemma {:induction false} ExpandInShape(shape: seq<nat>, fixed: seq<Option<nat>>, coord: seq<nat>)
    requires FitsShape(shape, fixed) && InShape(Rest(shape, fixed), coord)
    ensures |coord| == FreeAxes(fixed) && InShape(shape, Expand(fixed, coord))
  {
    hide Rest, Expand, FreeAxes, InShape;
    InShapeLength(Rest(shape, fixed), coord);
    if |shape| == 0 {
      RestLength(shape, fixed);
      NoAxes([]);
      assert fixed == [] && shape == [];
      assert coord == [];
    } else {
      var n := |shape| - 1;
      RestSnoc(shape, fixed);
      if fixed[n].Some? {
        ExpandInShape(shape[..n], fixed[..n], coord);
        ExpandFixed(fixed, coord);
      } else {
        var m := |coord| - 1;
        InShapeSnoc(Rest(shape, fixed), coord);
        ExpandInShape(shape[..n], fixed[..n], coord[..m]);
        ExpandSnoc(fixed, coord[..m], coord[m]);
        assert coord == coord[..m] + [coord[m]];
      }
      InShapeSnoc(shape, Expand(fixed, coord));
    }
  }

  // The sub-array at the fixed coordinates.
  function Fix(s: NamedSharding, fixed: seq<Option<nat>>): (r: NamedSharding)
    requires Valid(s) && FitsShape(s.shape, fixed)
  {
    var shape := Rest(s.shape, fixed);
    NamedSharding(shape, seq(Size(shape), i requires 0 <= i < Size(shape) => RankAt(s, fixed, i)), Rest(s.names, fixed))
  }

  function RankAt(s: NamedSharding, fixed: seq<Option<nat>>, i: nat): int
    requires Valid(s) && FitsShape(s.shape, fixed) && i < Size(Rest(s.shape, fixed))
  {
    ExpandInShape(s.shape, fixed, Coord(Rest(s.shape, fixed), i));
    At(s, Expand(fixed, Coord(Rest(s.shape, fixed), i)))
  }

  lemma {:induction false} ExpandInjective(fixed: seq<Option<nat>>, a: seq<nat>, b: seq<nat>)
    requires |a| == |b| == FreeAxes(fixed) && Expand(fixed, a) == Expand(fixed, b)
    ensures a == b
  {
    if |fixed| > 0 {
      var n := |fixed| - 1;
      assert Expand(fixed, a)[..n] == Expand(fixed, b)[..n];
      if fixed[n].Some? {
        ExpandInjective(fixed[..n], a, b);
      } else {
        ExpandInjective(fixed[..n], a[..|a| - 1], b[..|a| - 1]);
        assert a == a[..|a| - 1] + [a[|a| - 1]] && b == b[..|b| - 1] + [b[|b| - 1]];
      }
    }
  }

  lemma AtInjective(s: NamedSharding, a: seq<nat>, b: seq<nat>)
    requires Valid(s) && InShape(s.shape, a) && InShape(s.shape, b) && At(s, a) == At(s, b)
    ensures a == b
  {
    hide Offset, Size, Coord;
    CoordOfOffset(s.shape, a);
    CoordOfOffset(s.shape, b);
  }

  // A sub-array of a layout without duplicates has none.
  lemma FixValid(s: NamedSharding, fixed: seq<Option<nat>>)
    requires Valid(s) && FitsShape(s.shape, fixed)
    ensures Valid(Fix(s, fixed))
  {
    hide Size, Coord, Expand, At, Rest;
    var shape := Rest(s.shape, fixed);
    RestLength(s.shape, fixed);
    RestLength(s.names, fixed);
    var ranks := Fix(s, fixed).ranks;
    forall i, j | 0 <= i < j < |ranks| ensures ranks[i] != ranks[j] {
      RanksDiffer(s, fixed, i, j);
    }
  }

  lemma RanksDiffer(s: NamedSharding, fixed: seq<Option<nat>>, i: nat, j: nat)
    requires Valid(s) && FitsShape(s.shape, fixed) && i < j < Size(Rest(s.shape, fixed))
    ensures RankAt(s, fixed, i) != RankAt(s, fixed, j)
  {
    hide Size, Coord, Expand, At, Rest, Offset;
    var shape := Rest(s.shape, fixed);
    var a, b := Coord(shape, i), Coord(shape, j);
    ExpandInShape(s.shape, fixed, a);
    ExpandInShape(s.shape, fixed, b);
    OffsetOfCoord(shape, i);
    OffsetOfCoord(shape, j);
    if RankAt(s, fixed, i) == RankAt(s, fixed, j) {
      AtInjective(s, Expand(fixed, a), Expand(fixed, b));
      ExpandInjective(fixed, a, b);
    }
  }

  // ---------------------------------------------------------------- get_worker_coords

  // A dict in insertion order: assigning to a present key keeps its place.
  function Put(d: seq<(string, nat)>, key: string, value: nat): seq<(string, nat)> {
    if HasKey(d, key) then Overwrite(d, key, value) else d + [(key, value)]
  }

  predicate HasKey(d: seq<(string, nat)>, key: string) {
    exists i :: 0 <= i < |d| && d[i].0 == key
  }

  function Overwrite(d: seq<(string, nat)>, key: string, value: nat): seq<(string, nat)> {
    if |d| == 0 then []
    else
      var n := |d| - 1;
      Overwrite(d[..n], key, value) + [if d[n].0 == key then (key, value) else d[n]]
  }

  function CoordsOf(names: seq<string>, coord: seq<nat>): seq<(string, nat)>
    requires |coord| == |names|
  {
    if |names| == 0 then []
    else
      var n := |names| - 1;
      Put(CoordsOf(names[..n], coord[..n]), names[n], coord[n])
  }

  lemma {:induction false} OverwriteAt(d: seq<(string, nat)>, key: string, value: nat)
    ensures |Overwrite(d, key, value)| == |d|
    ensures forall i :: 0 <= i < |d| ==> Overwrite(d, key, value)[i] == if d[i].0 == key then (key, value) else d[i]
  {
    if |d| > 0 {
      OverwriteAt(d[..|d| - 1], key, value);
    }
  }

  // The dict of a rank's coordinates: every axis name once, with the coordinate on its last axis.
  ghost predicate IsCoordDict(d: seq<(string, nat)>, names: seq<string>, coord: seq<nat>)
    requires |coord| == |names|
  {
    && (forall i, j :: 0 <= i < j < |d| ==> d[i].0 != d[j].0)
    && (forall name :: name in names ==> exists i :: 0 <= i < |d| && d[i].0 == name)
    && (forall i :: 0 <= i < |d| ==> IsLastCoord(d[i], names, coord))
  }

  ghost predicate IsLastCoord(item: (string, nat), names: seq<string>, coord: seq<nat>)
    requires |coord| == |names|
  {
    exists a :: 0 <= a < |names| && names[a] == item.0 && coord[a] == item.1
                && forall b :: a < b < |names| ==> names[b] != item.0
  }

  lemma OlderCoord(item: (string, nat), names: seq<string>, coord: seq<nat>)
    requires 0 < |names| == |coord| && item.0 != names[|names| - 1]
    requires IsLastCoord(item, names[..|names| - 1], coord[..|names| - 1])
    ensures IsLastCoord(item, names, coord)
  {
    var n := |names| - 1;
    var a :| 0 <= a < n && names[..n][a] == item.0 && coord[..n][a] == item.1
             && forall b :: a < b < n ==> names[..n][b] != item.0;
    assert names[a] == item.0 && coord[a] == item.1;
    forall b | a < b < |names| ensures names[b] != item.0 {
      if b < n { assert names[..n][b] == names[b]; }
    }
  }

  lemma {:induction false} CoordsOfIsDict(names: seq<string>, coord: seq<nat>)
    requires |coord| == |names|
    ensures IsCoordDict(CoordsOf(names, coord), names, coord)
  {
    if |names| > 0 {
      hide IsLastCoord;
      var n := |names| - 1;
      var before, d := CoordsOf(names[..n], coord[..n]), CoordsOf(names, coord);
      var key, value := names[n], coord[n];
      CoordsOfIsDict(names[..n], coord[..n]);
      OverwriteAt(before, key, value);
      NewestCoord(names, coord);
      forall i | 0 <= i < |d| ensures IsLastCoord(d[i], names, coord) {
        if d[i].0 != key {
          OlderCoord(d[i], names, coord);
        }
      }
      PutKeys(before, d, names[..n], key, value);
      assert names == names[..n] + [key];
    }
  }

  lemma NewestCoord(names: seq<string>, coord: seq<nat>)
    requires 0 < |names| == |coord|
    ensures IsLastCoord((names[|names| - 1], coord[|names| - 1]), names, coord)
  {
    assert names[|names| - 1] == (names[|names| - 1], coord[|names| - 1]).0;
  }

  lemma PutKeys(before: seq<(string, nat)>, d: seq<(string, nat)>, older: seq<string>, key: string, value: nat)
    requires d == Put(before, key, value)
    requires forall i, j :: 0 <= i < j < |before| ==> before[i].0 != before[j].0
    requires forall name :: name in older ==> exists i :: 0 <= i < |before| && before[i].0 == name
    ensures forall i, j :: 0 <= i < j < |d| ==> d[i].0 != d[j].0
    ensures forall name :: name in older + [key] ==> exists i :: 0 <= i < |d| && d[i].0 == name
  {
    OverwriteAt(before, key, value);
    forall name | name in older + [key] ensures exists i :: 0 <= i < |d| && d[i].0 == name {
      if name in older {
        var i :| 0 <= i < |before| && before[i].0 == name;
        assert d[i].0 == name;
      } else if HasKey(before, key) {
        var i :| 0 <= i < |before| && before[i].0 == key;
        assert d[i].0 == key;
      } else {
        assert d[|before|].0 == key;
      }
    }
    hide Overwrite;
  }

  method GetWorkerCoords(s: NamedSharding, id: int) returns (r: Result<seq<(string, nat)>, ShardingError>, ghost coord: seq<nat>)
    requires Valid(s)
    ensures r.Ok? <==> id in s.ranks
    ensures r.Ok? ==> InShape(s.shape, coord) && At(s, coord) == id && r.value == CoordsOf(s.names, coord)
    ensures r.Ok? ==> IsCoordDict(r.value, s.names, coord)
    ensures r.Err? ==> r.error == NotFound
  {
    coord := [];
    var k := 0;
    while k < |s.ranks| && s.ranks[k] != id
      invariant k <= |s.ranks| && id !in s.ranks[..k]
    {
      k := k + 1;
    }
    if k == |s.ranks| {
      assert s.ranks[..k] == s.ranks;
      return Err(NotFound), coord;
    }
    OffsetOfCoord(s.shape, k);
    var indices := Coord(s.shape, k);
    coord := indices;
    var coords: seq<(string, nat)> := [];
    for i := 0 to |s.names|
      invariant coords == CoordsOf(s.names[..i], indices[..i])
    {
      assert s.names[..i + 1][..i] == s.names[..i] && indices[..i + 1][..i] == indices[..i];
      coords := Put(coords, s.names[i], indices[i]);
    }
    assert s.names[..|s.names|] == s.names && indices[..|indices|] == indices;
    CoordsOfIsDict(s.names, coord);
    return Ok(coords), coord;
  }

  // ---------------------------------------------------------------- get_ranks

  datatype Ranks = One(rank: int) | Many(sharding: NamedSharding)

  // The axes fixed by the keyword arguments in their order, or the first error.
  function FixedBy(s: NamedSharding, args: seq<(string, int)>): (r: Result<seq<Option<nat>>, ShardingError>)
    requires |s.names| == |s.shape|
    ensures r.Ok? ==> FitsShape(s.shape, r.value)
  {
    if |args| == 0 then Ok(seq(|s.shape|, _ => None))
    else
      match FixedBy(s, args[..|args| - 1])
      case Err(e) => Err(e)
      case Ok(fixed) => FixOne(s, fixed, args[|args| - 1])
  }

  function FixOne(s: NamedSharding, fixed: seq<Option<nat>>, arg: (string, int)): (r: Result<seq<Option<nat>>, ShardingError>)
    requires |s.names| == |s.shape| && FitsShape(s.shape, fixed)
    ensures r.Ok? ==> FitsShape(s.shape, r.value)
  {
    var axis := AxisOf(s.names, arg.0);
    if axis.None? then Err(InvalidName)
    else if 0 <= arg.1 < s.shape[axis.value] then Ok(fixed[axis.value := Some(arg.1)])
    else Err(OutOfBounds)
  }

  function RanksOf(s: NamedSharding, args: seq<(string, int)>): Result<Ranks, ShardingError>
    requires Valid(s)
  {
    match FixedBy(s, args)
    case Err(e) => Err(e)
    case Ok(fixed) => Ok(Subset(s, fixed))
  }

  function Subset(s: NamedSharding, fixed: seq<Option<nat>>): Ranks
    requires Valid(s) && FitsShape(s.shape, fixed)
  {
    FixValid(s, fixed);
    var sub := Fix(s, fixed);
    if |sub.names| == 0 then One(sub.ranks[0]) else Many(sub)
  }

  method GetRanks(s: NamedSharding, args: seq<(string, int)>) returns (r: Result<Ranks, ShardingError>)
    requires Valid(s)
    ensures r == RanksOf(s, args)
    ensures r.Ok? && r.value.Many? ==> Valid(r.value.sharding)
  {
    hide Fix, FitsShape;
    var fixed: seq<Option<nat>> := seq(|s.shape|, _ => None);
    for i := 0 to |args|
      invariant FixedBy(s, args[..i]) == Ok(fixed)
    {
      assert args[..i + 1][..i] == args[..i];
      var next := FixOne(s, fixed, args[i]);
      if next.Err? {
        FirstError(s, args, i + 1);
        return Err(next.error);
      }
      fixed := next.value;
    }
    assert args[..|args|] == args;
    FixValid(s, fixed);
    return Ok(Subset(s, fixed));
  }

  lemma {:induction false} FirstError(s: NamedSharding, args: seq<(string, int)>, n: nat)
    requires |s.names| == |s.shape| && n <= |args| && FixedBy(s, args[..n]).Err?
    ensures FixedBy(s, args) == FixedBy(s, args[..n])
    decreases |args|
  {
    if n < |args| {
      var before := args[..|args| - 1];
      assert before[..n] == args[..n];
      FirstError(s, before, n);
    } else {
      assert args[..n] == args;
    }
  }

  // ---------------------------------------------------------------- coordinates of a rank lead back to it

  lemma {:induction false} CoordsOfDistinct(names: seq<string>, coord: seq<nat>)
    requires Distinct(names) && |coord| == |names|
    ensures var d := CoordsOf(names, coord);
            |d| == |names| && forall a :: 0 <= a < |names| ==> d[a] == (names[a], coord[a])
  {
    if |names| > 0 {
      var n := |names| - 1;
      CoordsOfDistinct(names[..n], coord[..n]);
      assert !HasKey(CoordsOf(names[..n], coord[..n]), names[n]);
    }
  }

  function Args(d: seq<(string, nat)>): (r: seq<(string, int)>)
    ensures |r| == |d| && forall i :: 0 <= i < |d| ==> r[i] == (d[i].0, d[i].1)
  {
    seq(|d|, i requires 0 <= i < |d| => (d[i].0, d[i].1))
  }

  lemma {:induction false} FixedByCoords(s: NamedSharding, coord: seq<nat>, args: seq<(string, int)>, n: nat)
    requires |s.names| == |s.shape| && InShape(s.shape, coord) && Distinct(s.names) && n <= |s.names| == |args|
    requires forall a :: 0 <= a < |args| ==> args[a] == (s.names[a], coord[a] as int)
    ensures FixedBy(s, args[..n]).Ok?
    ensures forall a :: 0 <= a < |s.names| ==> FixedBy(s, args[..n]).value[a] == if a < n then Some(coord[a]) else None
  {
    if n > 0 {
      FixedByCoords(s, coord, args, n - 1);
      assert args[..n][..n - 1] == args[..n - 1];
      AxisOfDistinct(s.names, n - 1);
    }
  }

  lemma {:induction false} AllFixed(fixed: seq<Option<nat>>, coord: seq<nat>)
    requires |fixed| == |coord| && forall a :: 0 <= a < |fixed| ==> fixed[a] == Some(coord[a])
    ensures FreeAxes(fixed) == 0 && Expand(fixed, []) == coord
  {
    if |fixed| > 0 {
      var n := |fixed| - 1;
      AllFixed(fixed[..n], coord[..n]);
      assert coord == coord[..n] + [coord[n]];
    }
  }

  lemma AllFixedRank(s: NamedSharding, fixed: seq<Option<nat>>, coord: seq<nat>)
    requires Valid(s) && InShape(s.shape, coord) && |fixed| == |coord|
    requires forall a :: 0 <= a < |fixed| ==> fixed[a] == Some(coord[a])
    ensures FitsShape(s.shape, fixed) && Subset(s, fixed) == One(At(s, coord))
  {
    AllFixed(fixed, coord);
    RestLength(s.shape, fixed);
    RestLength(s.names, fixed);
    assert Rest(s.shape, fixed) == [];
    assert Coord([], 0) == [];
    assert RankAt(s, fixed, 0) == At(s, coord);
  }

  lemma RanksAtCoords(s: NamedSharding, coord: seq<nat>)
    requires Valid(s) && InShape(s.shape, coord) && Distinct(s.names)
    ensures RanksOf(s, Args(CoordsOf(s.names, coord))) == Ok(One(At(s, coord)))
  {
    hide Subset, At, FixedBy, CoordsOf;
    CoordsOfDistinct(s.names, coord);
    var args := Args(CoordsOf(s.names, coord));
    FixedByCoords(s, coord, args, |args|);
    assert args[..|args|] == args;
    AllFixedRank(s, FixedBy(s, args).value, coord);
  }

  // An axis whose name appears again later is never fixed.
  lemma {:induction false} ShadowedAxis(s: NamedSharding, args: seq<(string, int)>, a: nat, b: nat)
    requires |s.names| == |s.shape| && a < b < |s.names| && s.names[a] == s.names[b]
    ensures FixedBy(s, args).Ok? ==> FixedBy(s, args).value[a].None?
  {
    if |args| > 0 && FixedBy(s, args).Ok? {
      ShadowedAxis(s, args[..|args| - 1], a, b);
      LastAxis(s.names, args[|args| - 1].0, a, b);
    }
  }

  lemma {:induction false} LastAxis(names: seq<string>, name: string, a: nat, b: nat)
    requires a < b < |names| && names[a] == names[b]
    ensures AxisOf(names, name) != Some(a)
  {
    if names[|names| - 1] != name && b < |names| - 1 {
      LastAxis(names[..|names| - 1], name, a, b);
    }
  }

  lemma {:induction false} SomeFree(fixed: seq<Option<nat>>, a: nat)
    requires a < |fixed| && fixed[a].None?
    ensures FreeAxes(fixed) > 0
  {
    if a < |fixed| - 1 {
      SomeFree(fixed[..|fixed| - 1], a);
    }
  }

  lemma NeverOne(s: NamedSharding, args: seq<(string, int)>)
    requires Valid(s) && !Distinct(s.names)
    ensures RanksOf(s, args).Ok? ==> RanksOf(s, args).value.Many?
  {
    var a, b :| 0 <= a < b < |s.names| && s.names[a] == s.names[b];
    hide FixedBy, Fix;
    ShadowedAxis(s, args, a, b);
    if FixedBy(s, args).Ok? {
      var fixed := FixedBy(s, args).value;
      SomeFree(fixed, a);
      RestLength(s.names, fixed);
      FixNames(s, fixed);
    }
  }

  lemma FixNames(s: NamedSharding, fixed: seq<Option<nat>>)
    requires Valid(s) && FitsShape(s.shape, fixed)
    ensures Fix(s, fixed).names == Rest(s.names, fixed) && Fix(s, fixed).shape == Rest(s.shape, fixed)
  {
  }

  // get_ranks at the coordinates of a rank is that rank, for every rank, exactly when no axis name
  // is used twice (the constructor does not check that).
  lemma CoordsLeadBack(s: NamedSharding, coord: seq<nat>)
    requires Valid(s) && InShape(s.shape, coord)
    ensures RanksOf(s, Args(CoordsOf(s.names, coord))) == Ok(One(At(s, coord))) <==> Distinct(s.names)
  {
    hide RanksOf, At, CoordsOf, Distinct;
    if Distinct(s.names) {
      RanksAtCoords(s, coord);
    } else {
      NeverOne(s, Args(CoordsOf(s.names, coord)));
    }
  }

  // ---------------------------------------------------------------- fixing axes one at a time

  // The axes of the remaining layout fixed by g, seen from the full layout.
  function Compose(f: seq<Option<nat>>, g: seq<Option<nat>>): (r: seq<Option<nat>>)
    requires |g| == FreeAxes(f)
    ensures |r| == |f|
  {
    if |f| == 0 then []
    else
      var n := |f| - 1;
      if f[n].Some? then Compose(f[..n], g) + [f[n]]
      else Compose(f[..n], g[..|g| - 1]) + [g[|g| - 1]]
  }

  lemma ComposeSnoc(f: seq<Option<nat>>, g: seq<Option<nat>>, y: Option<nat>)
    requires |f| > 0 && f[|f| - 1].None? && |g| == FreeAxes(f[..|f| - 1])
    ensures FreeAxes(f) == |g| + 1
    ensures Compose(f, g + [y]) == Compose(f[..|f| - 1], g) + [y]
  {
    assert (g + [y])[..|g|] == g;
  }

  lemma ComposeFixed(f: seq<Option<nat>>, g: seq<Option<nat>>)
    requires |f| > 0 && f[|f| - 1].Some? && |g| == FreeAxes(f)
    ensures |g| == FreeAxes(f[..|f| - 1]) && Compose(f, g) == Compose(f[..|f| - 1], g) + [f[|f| - 1]]
  {
  }

  lemma {:induction false} RestCompose<X>(xs: seq<X>, f: seq<Option<nat>>, g: seq<Option<nat>>)
    requires |xs| == |f| && |g| == FreeAxes(f)
    ensures |Rest(xs, f)| == |g| && Rest(xs, Compose(f, g)) == Rest(Rest(xs, f), g)
    decreases |f|, 1
  {
    RestLength(xs, f);
    if |f| > 0 {
      hide Rest, Compose, FreeAxes;
      var n := |f| - 1;
      if f[n].Some? {
        RestSnoc(xs, f);
        RestCompose(xs[..n], f[..n], g);
        ComposeFixed(f, g);
        RestSnoc(xs, Compose(f, g));
      } else {
        RestComposeFree(xs, f, g);
      }
    }
  }

  lemma {:induction false} RestComposeFree<X>(xs: seq<X>, f: seq<Option<nat>>, g: seq<Option<nat>>)
    requires |xs| == |f| > 0 && |g| == FreeAxes(f) && f[|f| - 1].None?
    ensures |Rest(xs, f)| == |g| && Rest(xs, Compose(f, g)) == Rest(Rest(xs, f), g)
    decreases |f|, 0
  {
    hide Rest, Compose, FreeAxes;
    RestLength(xs, f);
    LastFreeAxis(f);
    var n, m := |f| - 1, |g| - 1;
    RestSnoc(xs, f);
    RestCompose(xs[..n], f[..n], g[..m]);
    ComposeSnoc(f, g[..m], g[m]);
    assert g == g[..m] + [g[m]];
    RestSnoc(xs, Compose(f, g));
    RestSnoc(Rest(xs, f), g);
  }

  lemma LastFreeAxis(f: seq<Option<nat>>)
    requires |f| > 0 && f[|f| - 1].None?
    ensures FreeAxes(f) == FreeAxes(f[..|f| - 1]) + 1
  {
  }

  lemma {:induction false} FreeCompose(f: seq<Option<nat>>, g: seq<Option<nat>>)
    requires |g| == FreeAxes(f)
    ensures FreeAxes(Compose(f, g)) == FreeAxes(g)
  {
    if |f| > 0 {
      var n := |f| - 1;
      if f[n].Some? {
        FreeCompose(f[..n], g);
      } else {
        FreeCompose(f[..n], g[..|g| - 1]);
      }
      assert Compose(f, g)[..n] == Compose(f[..n], if f[n].Some? then g else g[..|g| - 1]);
    }
  }

  lemma {:induction false} ExpandCompose(f: seq<Option<nat>>, g: seq<Option<nat>>, coord: seq<nat>)
    requires |g| == FreeAxes(f) && |coord| == FreeAxes(g)
    ensures FreeAxes(Compose(f, g)) == |coord|
    ensures Expand(Compose(f, g), coord) == Expand(f, Expand(g, coord))
  {
    FreeCompose(f, g);
    if |f| > 0 {
      var n := |f| - 1;
      var g' := if f[n].Some? then g else g[..|g| - 1];
      assert Compose(f, g)[..n] == Compose(f[..n], g');
      if f[n].Some? {
        ExpandCompose(f[..n], g, coord);
      } else {
        var m := |g| - 1;
        FreeCompose(f[..n], g');
        if g[m].Some? {
          ExpandCompose(f[..n], g', coord);
        } else {
          ExpandCompose(f[..n], g', coord[..|coord| - 1]);
        }
        assert Expand(g, coord)[..m] == Expand(g', if g[m].Some? then coord else coord[..|coord| - 1]);
      }
    }
  }

  lemma {:induction false} FitsCompose(shape: seq<nat>, f: seq<Option<nat>>, g: seq<Option<nat>>)
    requires FitsShape(shape, f) && |g| == FreeAxes(f) && FitsShape(Rest(shape, f), g)
    ensures FitsShape(shape, Compose(f, g))
  {
    if |f| > 0 {
      var n := |f| - 1;
      RestLength(shape[..n], f[..n]);
      if f[n].Some? {
        FitsCompose(shape[..n], f[..n], g);
      } else {
        var m := |g| - 1;
        assert Rest(shape, f)[m] == shape[n];
        assert Rest(shape, f)[..m] == Rest(shape[..n], f[..n]);
        FitsCompose(shape[..n], f[..n], g[..m]);
      }
    }
  }

  lemma RankAtTwice(s: NamedSharding, f: seq<Option<nat>>, g: seq<Option<nat>>, i: nat)
    requires Valid(s) && FitsShape(s.shape, f) && |g| == FreeAxes(f) && FitsShape(Rest(s.shape, f), g)
    requires FitsShape(s.shape, Compose(f, g)) && Rest(s.shape, Compose(f, g)) == Rest(Rest(s.shape, f), g)
    requires Valid(Fix(s, f)) && i < Size(Rest(Rest(s.shape, f), g))
    ensures RankAt(Fix(s, f), g, i) == RankAt(s, Compose(f, g), i)
  {
    hide Size, Coord, Expand, Rest, Compose, Offset, InShape, Valid;
    var shape := Rest(s.shape, f);
    var coord := Coord(Rest(shape, g), i);
    ExpandInShape(shape, g, coord);
    var inner := Expand(g, coord);
    ExpandInShape(s.shape, f, inner);
    CoordOfOffset(shape, inner);
    ExpandCompose(f, g, coord);
    ExpandInShape(s.shape, Compose(f, g), coord);
  }

  // Fixing axes of a sub-array is fixing them in the full array.
  lemma FixTwice(s: NamedSharding, f: seq<Option<nat>>, g: seq<Option<nat>>)
    requires Valid(s) && FitsShape(s.shape, f) && |g| == FreeAxes(f) && FitsShape(Rest(s.shape, f), g)
    ensures Valid(Fix(s, f)) && FitsShape(s.shape, Compose(f, g))
    ensures Fix(Fix(s, f), g) == Fix(s, Compose(f, g))
  {
    hide Rest, Compose, RankAt, Size;
    FixValid(s, f);
    FitsCompose(s.shape, f, g);
    RestCompose(s.shape, f, g);
    RestCompose(s.names, f, g);
    hide FitsShape, Valid;
    var shape := Rest(s.shape, Compose(f, g));
    forall i | 0 <= i < Size(shape) ensures RankAt(Fix(s, f), g, i) == RankAt(s, Compose(f, g), i) {
      RankAtTwice(s, f, g, i);
    }
  }

  function Free(n: nat): (r: seq<Option<nat>>)
    ensures |r| == n && forall a :: 0 <= a < n ==> r[a].None?
  {
    seq(n, _ => None)
  }

  lemma {:induction false} AllFree<X>(xs: seq<X>, coord: seq<nat>)
    requires |coord| == |xs|
    ensures FreeAxes(Free(|xs|)) == |xs| && Rest(xs, Free(|xs|)) == xs && Expand(Free(|xs|), coord) == coord
  {
    if |xs| > 0 {
      var n := |xs| - 1;
      AllFree(xs[..n], coord[..n]);
      assert Free(|xs|)[..n] == Free(n);
      assert coord == coord[..n] + [coord[n]];
    }
  }

  lemma FixNothing(s: NamedSharding)
    requires Valid(s)
    ensures Fix(s, Free(|s.shape|)) == s
  {
    hide Size, Coord, Expand, Offset, FreeAxes, Free;
    var f := Free(|s.shape|);
    AllFree(s.shape, seq(|s.shape|, _ => 0));
    AllFree(s.names, seq(|s.shape|, _ => 0));
    hide Rest;
    forall i | 0 <= i < Size(s.shape) ensures RankAt(s, f, i) == s.ranks[i] {
      AllFree(s.shape, Coord(s.shape, i));
      OffsetOfCoord(s.shape, i);
    }
  }

  lemma {:induction false} ComposeFree(f: seq<Option<nat>>)
    ensures Compose(f, Free(FreeAxes(f))) == f
  {
    if |f| > 0 {
      var n := |f| - 1;
      ComposeFree(f[..n]);
      assert f == f[..n] + [f[n]];
      if f[n].None? {
        assert Free(FreeAxes(f))[..FreeAxes(f) - 1] == Free(FreeAxes(f[..n]));
      }
    }
  }

  // A free axis a has as many free axes before it as its position among the remaining ones.
  lemma {:induction false} RestAt<X>(xs: seq<X>, f: seq<Option<nat>>, a: nat)
    requires |xs| == |f| && a < |f| && f[a].None?
    ensures FreeAxes(f[..a]) < FreeAxes(f) == |Rest(xs, f)|
    ensures Rest(xs, f)[FreeAxes(f[..a])] == xs[a]
  {
    RestLength(xs, f);
    var n := |f| - 1;
    RestLength(xs[..n], f[..n]);
    if a < n {
      RestAt(xs[..n], f[..n], a);
      assert f[..n][..a] == f[..a];
    }
  }

  lemma {:induction false} ComposeOne(f: seq<Option<nat>>, a: nat, index: nat)
    requires a < |f| && f[a].None?
    ensures FreeAxes(f[..a]) < FreeAxes(f)
    ensures Compose(f, Free(FreeAxes(f))[FreeAxes(f[..a]) := Some(index)]) == f[a := Some(index)]
  {
    hide FreeAxes, Compose, Free;
    RestAt(f, f, a);
    var n := |f| - 1;
    var m, p := FreeAxes(f), FreeAxes(f[..a]);
    if a == n {
      ComposeFree(f[..n]);
      ComposeLast(f, index);
    } else {
      assert f[..n][..a] == f[..a];
      ComposeOne(f[..n], a, index);
      ComposeEarlier(f, Free(m)[p := Some(index)], p, index);
      assert f[a := Some(index)] == f[..n][a := Some(index)] + [f[n]];
    }
  }

  lemma ComposeLast(f: seq<Option<nat>>, index: nat)
    requires |f| > 0 && f[|f| - 1].None? && Compose(f[..|f| - 1], Free(FreeAxes(f[..|f| - 1]))) == f[..|f| - 1]
    ensures var n := |f| - 1;
            Compose(f, Free(FreeAxes(f))[FreeAxes(f[..n]) := Some(index)]) == f[n := Some(index)]
  {
    hide Compose, FreeAxes, Free;
    var n := |f| - 1;
    var k := FreeAxes(f[..n]);
    ComposeSnoc(f, Free(k), Some(index));
    LastFree(k, index);
    UpdateLast(f, Some(index));
  }

  lemma LastFree(k: nat, index: nat)
    ensures Free(k + 1)[k := Some(index)] == Free(k) + [Some(index)]
  {
  }

  lemma UpdateLast<X>(xs: seq<X>, x: X)
    requires |xs| > 0
    ensures xs[|xs| - 1 := x] == xs[..|xs| - 1] + [x]
  {
  }

  lemma ComposeEarlier(f: seq<Option<nat>>, g: seq<Option<nat>>, p: nat, index: nat)
    requires |f| > 0 && p < FreeAxes(f[..|f| - 1]) && g == Free(FreeAxes(f))[p := Some(index)]
    ensures var n := |f| - 1;
            Compose(f, g) == Compose(f[..n], Free(FreeAxes(f[..n]))[p := Some(index)]) + [f[n]]
  {
    var n := |f| - 1;
    var k := FreeAxes(f[..n]);
    if f[n].None? {
      assert g[..k] == Free(k)[p := Some(index)];
    }
  }

  lemma {:induction false} RestDistinct(xs: seq<string>, f: seq<Option<nat>>)
    requires |xs| == |f| && Distinct(xs)
    ensures Distinct(Rest(xs, f)) && forall x :: x in Rest(xs, f) ==> x in xs
  {
    if |xs| > 0 {
      var n := |xs| - 1;
      RestDistinct(xs[..n], f[..n]);
      assert xs[n] !in xs[..n];
      assert forall i :: 0 <= i < |Rest(xs[..n], f[..n])| ==> Rest(xs[..n], f[..n])[i] in xs[..n];
    }
  }

  // A name that no argument uses names a free axis.
  lemma {:induction false} FreshAxis(s: NamedSharding, args: seq<(string, int)>, name: string)
    requires |s.names| == |s.shape| && forall j :: 0 <= j < |args| ==> args[j].0 != name
    ensures FixedBy(s, args).Ok? && AxisOf(s.names, name).Some? ==> FixedBy(s, args).value[AxisOf(s.names, name).value].None?
  {
    if |args| > 0 {
      FreshAxis(s, args[..|args| - 1], name);
    }
  }

  // One more argument on the sub-array acts as on the full array.
  lemma OneMore(s: NamedSharding, f: seq<Option<nat>>, arg: (string, int))
    requires Valid(s) && Distinct(s.names) && FitsShape(s.shape, f)
    requires AxisOf(s.names, arg.0).Some? ==> f[AxisOf(s.names, arg.0).value].None?
    ensures Valid(Fix(s, f))
    ensures RanksOf(Fix(s, f), [arg])
         == match FixOne(s, f, arg) case Err(e) => Err(e) case Ok(f') => Ok(Subset(s, f'))
  {
    FixValid(s, f);
    var t := Fix(s, f);
    RestLength(s.names, f);
    RestLength(s.shape, f);
    FixNames(s, f);
    assert [arg][..0] == [];
    RestDistinct(s.names, f);
    assert FixedBy(t, [arg]) == FixOne(t, Free(|t.shape|), arg);
    var axis := AxisOf(s.names, arg.0);
    hide Fix, Valid, Rest, FixedBy, Distinct, FreeAxes, Free;
    if axis.None? {
      assert arg.0 !in t.names;
    } else {
      OneMoreAxis(s, f, arg, axis.value);
    }
  }

  lemma OneMoreAxis(s: NamedSharding, f: seq<Option<nat>>, arg: (string, int), a: nat)
    requires Valid(s) && Distinct(s.names) && FitsShape(s.shape, f) && AxisOf(s.names, arg.0) == Some(a) && f[a].None?
    ensures Valid(Fix(s, f))
    ensures match FixOne(Fix(s, f), Free(|Fix(s, f).shape|), arg)
            case Err(e) => FixOne(s, f, arg) == Err(e)
            case Ok(g) => FixOne(s, f, arg).Ok? && Subset(Fix(s, f), g) == Subset(s, FixOne(s, f, arg).value)
  {
    FixValid(s, f);
    FixNames(s, f);
    var t, p := Fix(s, f), FreeAxes(f[..a]);
    RestAt(s.names, f, a);
    RestAt(s.shape, f, a);
    RestDistinct(s.names, f);
    AxisOfDistinct(t.names, p);
    hide Fix, Rest, FreeAxes, Compose, Distinct;
    if 0 <= arg.1 < s.shape[a] {
      var g := Free(|t.shape|)[p := Some(arg.1)];
      ComposeOne(f, a, arg.1);
      FixTwice(s, f, g);
    }
  }

  // A chain of calls ends with an error of get_ranks, or with an int, which has no get_ranks.
  datatype ChainError = Refused(error: ShardingError) | NoSuchMethod

  function Then(r: Result<Ranks, ShardingError>, arg: (string, int)): Result<Ranks, ChainError>
    requires r.Ok? && r.value.Many? ==> Valid(r.value.sharding)
  {
    match r
    case Err(e) => Err(Refused(e))
    case Ok(One(_)) => Err(NoSuchMethod)
    case Ok(Many(t)) =>
      match RanksOf(t, [arg])
      case Err(e) => Err(Refused(e))
      case Ok(ranks) => Ok(ranks)
  }

  // Fixing all axes at once is fixing them one at a time, with the same error. Only where the chain
  // would go on with an int does the single call report a name that is no axis instead.
  lemma {:induction false} OneAtATime(s: NamedSharding, args: seq<(string, int)>)
    requires Valid(s) && Distinct(s.names) && |args| > 0
    requires forall i, j :: 0 <= i < j < |args| ==> args[i].0 != args[j].0
    ensures var before := RanksOf(s, args[..|args| - 1]);
            && (before.Ok? && before.value.Many? ==> Valid(before.value.sharding))
            && match Then(before, args[|args| - 1])
               case Ok(ranks) => RanksOf(s, args) == Ok(ranks)
               case Err(Refused(e)) => RanksOf(s, args) == Err(e)
               case Err(NoSuchMethod) => RanksOf(s, args) == Err(InvalidName) && args[|args| - 1].0 !in s.names
  {
    var n := |args| - 1;
    var arg := args[n];
    FreshAxis(s, args[..n], arg.0);
    if FixedBy(s, args[..n]).Ok? {
      var f := FixedBy(s, args[..n]).value;
      RestLength(s.names, f);
      FixNames(s, f);
      if AxisOf(s.names, arg.0).Some? {
        SomeFree(f, AxisOf(s.names, arg.0).value);
      }
      OneMore(s, f, arg);
    }
    hide Fix, AxisOf;
  }

  // Without arguments get_ranks is the whole layout.
  lemma NoArguments(s: NamedSharding)
    requires Valid(s) && |s.names| > 0
    ensures RanksOf(s, []) == Ok(Many(s))
  {
    FixNothing(s);
  }

  // ---------------------------------------------------------------- get_ranks_by_coord

  // The coordinates agree with the fixed axes.
  ghost predicate Matches(coord: seq<nat>, fixed: seq<Option<nat>>) {
    |coord| == |fixed| && forall a :: 0 <= a < |fixed| && fixed[a].Some? ==> fixed[a].value == coord[a]
  }

  lemma {:induction false} ExpandRest(coord: seq<nat>, fixed: seq<Option<nat>>)
    requires Matches(coord, fixed)
    ensures |Rest(coord, fixed)| == FreeAxes(fixed) && Expand(fixed, Rest(coord, fixed)) == coord
  {
    hide Rest, Expand, FreeAxes;
    RestLength(coord, fixed);
    if |coord| == 0 {
      assert Expand(fixed, Rest(coord, fixed)) == coord;
    } else {
      var n := |coord| - 1;
      ExpandRest(coord[..n], fixed[..n]);
      RestSnoc(coord, fixed);
      var rest := Rest(coord[..n], fixed[..n]);
      if fixed[n].None? {
        ExpandSnoc(fixed, rest, coord[n]);
      } else {
        ExpandFixed(fixed, rest);
      }
      assert coord == coord[..n] + [coord[n]];
    }
  }

  lemma {:induction false} RestInShape(shape: seq<nat>, coord: seq<nat>, fixed: seq<Option<nat>>)
    requires InShape(shape, coord) && |fixed| == |shape|
    ensures InShape(Rest(shape, fixed), Rest(coord, fixed))
  {
    if |shape| > 0 {
      RestInShape(shape[..|shape| - 1], coord[..|shape| - 1], fixed[..|shape| - 1]);
    }
  }

  lemma {:induction false} ExpandMatches(fixed: seq<Option<nat>>, coord: seq<nat>)
    requires |coord| == FreeAxes(fixed)
    ensures Matches(Expand(fixed, coord), fixed)
  {
    if |fixed| > 0 {
      var n := |fixed| - 1;
      ExpandMatches(fixed[..n], if fixed[n].Some? then coord else coord[..|coord| - 1]);
    }
  }

  // The sub-array holds a rank exactly when the rank's coordinates agree with the fixed axes.
  lemma FixHolds(s: NamedSharding, fixed: seq<Option<nat>>, coord: seq<nat>)
    requires Valid(s) && FitsShape(s.shape, fixed) && InShape(s.shape, coord)
    ensures At(s, coord) in Fix(s, fixed).ranks <==> Matches(coord, fixed)
  {
    hide Rest, Expand, Coord, Size, Offset, Matches, At;
    var shape := Rest(s.shape, fixed);
    if Matches(coord, fixed) {
      ExpandRest(coord, fixed);
      RestInShape(s.shape, coord, fixed);
      CoordOfOffset(shape, Rest(coord, fixed));
      var k := Offset(shape, Rest(coord, fixed));
      assert Fix(s, fixed).ranks[k] == RankAt(s, fixed, k) == At(s, coord);
    }
    if At(s, coord) in Fix(s, fixed).ranks {
      var i :| 0 <= i < Size(shape) && Fix(s, fixed).ranks[i] == At(s, coord);
      var inner := Coord(shape, i);
      ExpandInShape(s.shape, fixed, inner);
      assert At(s, Expand(fixed, inner)) == RankAt(s, fixed, i) == At(s, coord);
      AtInjective(s, coord, Expand(fixed, inner));
      ExpandMatches(fixed, inner);
    }
  }

  // sorted(unique(...)) of ranks without duplicates.
  method SortRanks(ranks: seq<int>) returns (sorted: seq<int>)
    requires Distinct(ranks)
    ensures Increasing(sorted) && multiset(sorted) == multiset(ranks)
  {
    var order := ArgSort(ranks, |ranks|);
    sorted := Gather(ranks, order);
    ArgSortSorted(ranks, |ranks|);
    GatherPermutation(ranks, order);
    forall a, b | 0 <= a < b < |sorted| ensures sorted[a] < sorted[b] {
      assert Before(ranks, order[a], order[b]);
      PermutationInjective(order, |ranks|, a, b);
    }
  }

  // The loop stops at the first out-of-range index, with no ranks, and at the first unknown name,
  // with an error.
  method GetRanksByCoord(s: NamedSharding, args: seq<(string, int)>) returns (r: Result<seq<int>, ShardingError>)
    requires Valid(s)
    ensures match FixedBy(s, args)
            case Ok(fixed) => r.Ok? && Increasing(r.value) && multiset(r.value) == multiset(Fix(s, fixed).ranks)
            case Err(OutOfBounds) => r == Ok([])
            case Err(e) => r == Err(e)
  {
    hide Fix, FitsShape;
    var fixed: seq<Option<nat>> := seq(|s.shape|, _ => None);
    for i := 0 to |args|
      invariant FixedBy(s, args[..i]) == Ok(fixed)
    {
      assert args[..i + 1][..i] == args[..i];
      var next := FixOne(s, fixed, args[i]);
      if next.Err? {
        FirstError(s, args, i + 1);
        if next.error.OutOfBounds? {
          return Ok([]);
        }
        return Err(next.error);
      }
      fixed := next.value;
    }
    assert args[..|args|] == args;
    FixValid(s, fixed);
    var sorted := SortRanks(Fix(s, fixed).ranks);
    return Ok(sorted);
  }

  // The ranks at one index of one axis.
  ghost predicate HoldsRank(s: NamedSharding, name: string, index: int, rank: int)
    requires Valid(s)
  {
    match FixedBy(s, [(name, index)])
    case Ok(fixed) => rank in Fix(s, fixed).ranks
    case Err(_) => false
  }

  // Over one axis the ranks are partitioned: each rank is found at exactly one index, its coordinate.
  lemma AxisPartitions(s: NamedSharding, a: nat, coord: seq<nat>, index: int)
    requires Valid(s) && a < |s.names| && AxisOf(s.names, s.names[a]) == Some(a) && InShape(s.shape, coord)
    ensures HoldsRank(s, s.names[a], index, At(s, coord)) <==> index == coord[a]
  {
    hide Fix, At;
    assert [(s.names[a], index)][..0] == [];
    var free := seq<Option<nat>>(|s.shape|, _ => None);
    assert FixedBy(s, [(s.names[a], index)]) == FixOne(s, free, (s.names[a], index));
    if 0 <= index < s.shape[a] {
      FixHolds(s, free[a := Some(index)], coord);
    }
  }

  // Every rank of the layout sits at some coordinates, so the partition covers all of them.
  lemma EveryRankHasCoords(s: NamedSharding, k: nat)
    requires Valid(s) && k < |s.ranks|
    ensures InShape(s.shape, Coord(s.shape, k)) && At(s, Coord(s.shape, k)) == s.ranks[k]
  {
    OffsetOfCoord(s.shape, k);
  }
}
