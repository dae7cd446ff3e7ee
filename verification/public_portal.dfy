/** The public hospital finder: the filter bar's state, the filtered and
    sorted list, its paging, and the three "smart route" recommendations.
    Distances from the user are inputs; without a position there are none. */
module PublicPortal {
  import opened Common
  import opened Types
  import opened Travel
  import opened Sorting

  /** Rows shown per page. */
  const PAGE_SIZE: nat := 8

  /** How many recommendations are shown. */
  const TOP_COUNT: nat := 3

  // ---------------------------------------------------------------------
  // Filter bar state

  datatype Filters = Filters(searchTerm: string, types: seq<string>, hasIcu: bool, isOpen247: bool, goodPpe: bool)

  datatype SortKey = Distance | AvailableBeds | AvailableIcu | GoogleRating | CurrentWaitTime | MinConsultCharge

  datatype Direction = Asc | Desc

  /** What the list is filtered and sorted by. */
  datatype View = View(filters: Filters, key: SortKey, direction: Direction)

  const NoFilters: Filters := Filters("", [], false, false, false)

  /** The reset button: no filters, nearest first. */
  function Cleared(): (v: View)
    ensures v.filters.searchTerm == "" && v.filters.types == []
    ensures !v.filters.hasIcu && !v.filters.isOpen247 && !v.filters.goodPpe
    ensures v.key == Distance && v.direction == Asc
  {
    View(NoFilters, Distance, Asc)
  }

  /** Choosing the current key again flips the direction; a new key starts
      ascending. */
  function HandleSort(v: View, key: SortKey): (r: View)
    ensures r.filters == v.filters && r.key == key
    ensures key == v.key ==> r.direction != v.direction
    ensures key != v.key ==> r.direction == Asc
  {
    if v.key == key then v.(direction := if v.direction == Asc then Desc else Asc)
    else v.(key := key, direction := Asc)
  }

  /** Choosing the same key twice restores the view. */
  lemma HandleSortTwice(v: View)
    ensures HandleSort(HandleSort(v, v.key), v.key) == v
  {
  }

  /** `types.filter(t => t !== type)`: every occurrence removed. */
  function Without(types: seq<string>, t: string): (r: seq<string>)
    ensures t !in r && forall u :: u in r <==> u in types && u != t
    ensures multiset(r) <= multiset(types)
  {
    Filter(types, u => u != t)
  }

  /** A type checkbox: removes the type if listed, otherwise appends it. */
  function ToggleType(f: Filters, t: string): (r: Filters)
    ensures t in r.types <==> t !in f.types
    ensures forall u | u != t :: u in r.types <==> u in f.types
    ensures r.(types := f.types) == f
  {
    if t in f.types then f.(types := Without(f.types, t)) else f.(types := f.types + [t])
  }

  /** A list without repeats. */
  predicate Distinct(types: seq<string>)
  {
    forall i, j :: 0 <= i < j < |types| ==> types[i] != types[j]
  }

  lemma {:induction false} WithoutAbsent(types: seq<string>, t: string)
    requires t !in types
    ensures Without(types, t) == types
  {
    FilterAll(types, u => u != t);
  }

  /** Toggling a type twice gives back the same list when it was not
      selected, and the same selection (as a set of distinct types)
      otherwise; the list stays free of repeats. */
  lemma ToggleTwice(f: Filters, t: string)
    requires Distinct(f.types)
    ensures Distinct(ToggleType(f, t).types)
    ensures t !in f.types ==> ToggleType(ToggleType(f, t), t) == f
    ensures multiset(ToggleType(ToggleType(f, t), t).types) == multiset(f.types)
  {
    var g := ToggleType(f, t);
    if t !in f.types {
      WithoutAbsent(f.types, t);
      assert f.types + [t] == g.types;
      FilterAppend(f.types, [t], u => u != t);
      assert Filter([t], u => u != t) == [];
    } else {
      WithoutKeepsDistinct(f.types, t);
      var w := Without(f.types, t);
      WithoutAbsent(w, t);
      assert ToggleType(g, t).types == w + [t];
      WithoutOfDistinct(f.types, t);
    }
  }

  lemma {:induction false} WithoutKeepsDistinct(types: seq<string>, t: string)
    requires Distinct(types)
    ensures Distinct(Without(types, t))
  {
    if |types| > 0 {
      assert Distinct(types[1..]);
      WithoutKeepsDistinct(types[1..], t);
      WithoutCons(types, t);
      if types[0] != t {
        assert types[0] !in types[1..] by {
          assert forall k :: 0 <= k < |types[1..]| ==> types[1..][k] == types[k + 1];
        }
        ConsDistinct(types[0], Without(types[1..], t));
      }
    }
  }

  lemma WithoutCons(types: seq<string>, t: string)
    requires |types| > 0
    ensures Without(types, t) == if types[0] != t then [types[0]] + Without(types[1..], t) else Without(types[1..], t)
  {
  }

  lemma ConsDistinct(a: string, rest: seq<string>)
    requires a !in rest && Distinct(rest)
    ensures Distinct([a] + rest)
  {
    var w := [a] + rest;
    forall i, j | 0 <= i < j < |w| ensures w[i] != w[j] {
      assert w[j] == rest[j - 1];
      if i > 0 {
        assert w[i] == rest[i - 1];
      }
    }
  }

  /** In a list without repeats every element occurs once. */
  lemma {:induction false} DistinctCount(types: seq<string>, u: string)
    requires Distinct(types)
    ensures multiset(types)[u] <= 1
  {
    if |types| > 0 {
      assert Distinct(types[1..]);
      DistinctCount(types[1..], u);
      assert types == [types[0]] + types[1..];
      if types[0] == u {
        assert u !in types[1..];
      }
    }
  }

  /** Removing a type listed once from a list without repeats and adding
      it back gives the same multiset. */
  lemma WithoutOfDistinct(types: seq<string>, t: string)
    requires Distinct(types) && t in types
    ensures multiset(Without(types, t) + [t]) == multiset(types)
  {
    var w := Without(types, t);
    DistinctCount(types, t);
    forall u ensures multiset(w + [t])[u] == multiset(types)[u] {
      if u == t {
        assert t !in w;
      } else {
        WithoutCount(types, t, u);
      }
    }
  }

  lemma {:induction false} WithoutCount(types: seq<string>, t: string, u: string)
    requires u != t
    ensures multiset(Without(types, t))[u] == multiset(types)[u]
  {
    if |types| > 0 {
      WithoutCount(types[1..], t, u);
      assert types == [types[0]] + types[1..];
      if types[0] != t {
        assert Without(types, t) == [types[0]] + Without(types[1..], t);
      }
    }
  }

  function BoolCount(b: bool): nat
  {
    if b then 1 else 0
  }

  /** The badge on the filter button: selected types plus switched-on
      checkboxes. The search term does not count. */
  function ActiveFilterCount(f: Filters): (n: nat)
    ensures n == 0 <==> f.types == [] && !f.hasIcu && !f.isOpen247 && !f.goodPpe
    ensures n <= |f.types| + 3
  {
    |f.types| + BoolCount(f.hasIcu) + BoolCount(f.isOpen247) + BoolCount(f.goodPpe)
  }

  /** Toggling a type moves the badge by exactly one. */
  lemma ToggleTypeCount(f: Filters, t: string)
    requires Distinct(f.types)
    ensures t in f.types ==> ActiveFilterCount(ToggleType(f, t)) == ActiveFilterCount(f) - 1
    ensures t !in f.types ==> ActiveFilterCount(ToggleType(f, t)) == ActiveFilterCount(f) + 1
  {
    if t in f.types {
      WithoutOfDistinct(f.types, t);
      assert |multiset(Without(f.types, t) + [t])| == |multiset(f.types)|;
    }
  }

  // ---------------------------------------------------------------------
  // The list

  /** A listed hospital with its distance from the user, if known. */
  datatype Row = Row(h: LiveHospital, distance: Option<real>)

  /** The list before filtering: one row per hospital. */
  function Rows(live: seq<LiveHospital>, distances: Option<seq<real>>): (r: seq<Row>)
    requires distances.Some? ==> |distances.value| == |live|
    ensures |r| == |live|
    ensures forall i :: 0 <= i < |r| ==> r[i].h == live[i]
    ensures forall i :: 0 <= i < |r| ==> r[i].distance == if distances.Some? then Some(distances.value[i]) else None
  {
    seq(|live|, i requires 0 <= i < |live| =>
      Row(live[i], if distances.Some? then Some(distances.value[i]) else None))
  }

  /** The search term, lower-cased, occurs in the name, state or address. */
  predicate SearchHit(term: string, x: Row)
  {
    ContainsIgnoringCase(x.h.name, term) || ContainsIgnoringCase(x.h.state, term)
      || ContainsIgnoringCase(x.h.address, term)
  }

  /** Some selected type occurs, ignoring case, in the hospital's type. */
  predicate TypeHit(types: seq<string>, x: Row)
  {
    exists t | t in types :: ContainsIgnoringCase(x.h.kind.Label(), t)
  }

  /** A row passes every active filter. */
  predicate Matches(f: Filters, x: Row)
  {
    && (f.searchTerm != "" ==> SearchHit(f.searchTerm, x))
    && (|f.types| > 0 ==> TypeHit(f.types, x))
    && (f.hasIcu ==> x.h.availableIcu > 0.0)
    && (f.isOpen247 ==> Contains(x.h.availableHours, "24x7"))
    && (f.goodPpe ==> x.h.ppe == Good)
  }

  /** One `if (...) data = data.filter(...)` step. */
  function Stage(xs: seq<Row>, on: bool, p: Row -> bool): (r: seq<Row>)
    ensures forall x :: x in r <==> x in xs && (on ==> p(x))
    ensures multiset(r) <= multiset(xs)
    ensures !on ==> r == xs
  {
    if on then Filter(xs, p) else xs
  }

  /** The first two filter steps: the search box and the type chips. */
  function SearchAndType(rows: seq<Row>, f: Filters): (r: seq<Row>)
    ensures forall x :: x in r <==> (x in rows
      && (f.searchTerm != "" ==> SearchHit(f.searchTerm, x))
      && (|f.types| > 0 ==> TypeHit(f.types, x)))
    ensures multiset(r) <= multiset(rows)
    ensures f.searchTerm == "" && |f.types| == 0 ==> r == rows
  {
    var a := Stage(rows, f.searchTerm != "", x => SearchHit(f.searchTerm, x));
    Stage(a, |f.types| > 0, x => TypeHit(f.types, x))
  }

  /** The last three filter steps: the ICU, 24x7 and PPE toggles. */
  function Toggles(rows: seq<Row>, f: Filters): (r: seq<Row>)
    ensures forall x :: x in r <==> (x in rows
      && (f.hasIcu ==> x.h.availableIcu > 0.0)
      && (f.isOpen247 ==> Contains(x.h.availableHours, "24x7"))
      && (f.goodPpe ==> x.h.ppe == Good))
    ensures multiset(r) <= multiset(rows)
    ensures !f.hasIcu && !f.isOpen247 && !f.goodPpe ==> r == rows
  {
    var c := Stage(rows, f.hasIcu, (x: Row) => x.h.availableIcu > 0.0);
    var d := Stage(c, f.isOpen247, (x: Row) => Contains(x.h.availableHours, "24x7"));
    Stage(d, f.goodPpe, (x: Row) => x.h.ppe == Good)
  }

  /** The five filter steps in the order they are applied. */
  function Filtered(rows: seq<Row>, f: Filters): (r: seq<Row>)
    ensures forall x :: x in r <==> x in rows && Matches(f, x)
    ensures multiset(r) <= multiset(rows)
    ensures f.searchTerm == "" && ActiveFilterCount(f) == 0 ==> r == rows
  {
    Toggles(SearchAndType(rows, f), f)
  }

  /** The comparator's sign for distances: a missing distance counts as
      infinitely far, and two missing ones compare equal (`Infinity -
      Infinity` is `NaN`, which `sort` treats as a tie). */
  function DistanceDiff(a: Option<real>, b: Option<real>): real
  {
    match (a, b)
    case (None, None) => 0.0
    case (None, Some(_)) => 1.0
    case (Some(_), None) => -1.0
    case (Some(x), Some(y)) => x - y
  }

  /** The comparator for 'asc' before the direction is applied. */
  function KeyCompare(key: SortKey, a: Row, b: Row): real
  {
    match key
    case Distance => DistanceDiff(a.distance, b.distance)
    case AvailableBeds => b.h.availableBeds - a.h.availableBeds
    case AvailableIcu => b.h.availableIcu - a.h.availableIcu
    case GoogleRating => b.h.googleRating - a.h.googleRating
    case CurrentWaitTime => a.h.currentWaitTime - b.h.currentWaitTime
    case MinConsultCharge => a.h.minConsultCharge - b.h.minConsultCharge
  }

  function ListCompare(key: SortKey, dir: Direction, a: Row, b: Row): real
  {
    if dir == Asc then KeyCompare(key, a, b) else -KeyCompare(key, a, b)
  }

  /** What 'asc' means per key: more beds, more ICU beds and higher rating
      first; shorter distance, wait and fee first; unknown distances last. */
  predicate AscendingPair(key: SortKey, a: Row, b: Row)
  {
    match key
    case Distance => b.distance.None? || (a.distance.Some? && a.distance.value <= b.distance.value)
    case AvailableBeds => a.h.availableBeds >= b.h.availableBeds
    case AvailableIcu => a.h.availableIcu >= b.h.availableIcu
    case GoogleRating => a.h.googleRating >= b.h.googleRating
    case CurrentWaitTime => a.h.currentWaitTime <= b.h.currentWaitTime
    case MinConsultCharge => a.h.minConsultCharge <= b.h.minConsultCharge
  }

  /** 'desc' is 'asc' read backwards. */
  predicate InOrder(key: SortKey, dir: Direction, a: Row, b: Row)
  {
    if dir == Asc then AscendingPair(key, a, b) else AscendingPair(key, b, a)
  }

  lemma ListCompareMeaning(key: SortKey, dir: Direction, a: Row, b: Row)
    ensures ListCompare(key, dir, a, b) <= 0.0 <==> InOrder(key, dir, a, b)
  {
  }

  /** Negating every comparison reverses the order. */
  lemma DescReversesAsc(key: SortKey, a: Row, b: Row)
    ensures ListCompare(key, Desc, a, b) == ListCompare(key, Asc, b, a)
  {
  }

  function ListOrder(key: SortKey, dir: Direction): (Row, Row) -> bool
  {
    (a: Row, b: Row) => ListCompare(key, dir, a, b) <= 0.0
  }

  lemma ListOrderConsistent(key: SortKey, dir: Direction)
    ensures TotalPreorder(ListOrder(key, dir))
  {
    var le := ListOrder(key, dir);
    forall a, b ensures le(a, b) || le(b, a) {
      ListCompareMeaning(key, dir, a, b);
      ListCompareMeaning(key, dir, b, a);
    }
    forall a, b, c | le(a, b) && le(b, c) ensures le(a, c) {
      ListCompareMeaning(key, dir, a, b);
      ListCompareMeaning(key, dir, b, c);
      ListCompareMeaning(key, dir, a, c);
    }
  }

  /** The list as shown: the matching rows, ordered by the chosen key and
      direction. */
  function Processed(live: seq<LiveHospital>, distances: Option<seq<real>>, v: View): (r: seq<Row>)
    requires distances.Some? ==> |distances.value| == |live|
    ensures forall x :: x in r <==> x in Rows(live, distances) && Matches(v.filters, x)
    ensures multiset(r) <= multiset(Rows(live, distances))
    ensures forall i, j :: 0 <= i < j < |r| ==> InOrder(v.key, v.direction, r[i], r[j])
    ensures v.filters.searchTerm == "" && ActiveFilterCount(v.filters) == 0 ==>
      multiset(r) == multiset(Rows(live, distances)) && |r| == |live|
  {
    if |live| == 0 then []
    else
      var kept := Filtered(Rows(live, distances), v.filters);
      ListOrderConsistent(v.key, v.direction);
      SortedRows(kept, v.key, v.direction);
      Sort(kept, ListOrder(v.key, v.direction))
  }

  /** Sorting the kept rows keeps the same rows and puts them in order. */
  lemma SortedRows(kept: seq<Row>, key: SortKey, dir: Direction)
    requires TotalPreorder(ListOrder(key, dir))
    ensures forall x :: x in Sort(kept, ListOrder(key, dir)) <==> x in kept
    ensures forall i, j :: 0 <= i < j < |kept| ==>
      InOrder(key, dir, Sort(kept, ListOrder(key, dir))[i], Sort(kept, ListOrder(key, dir))[j])
  {
    var r := Sort(kept, ListOrder(key, dir));
    forall x ensures x in r <==> x in kept {
      assert x in r <==> x in multiset(r);
      assert x in kept <==> x in multiset(kept);
    }
    forall i, j | 0 <= i < j < |r| ensures InOrder(key, dir, r[i], r[j]) {
      assert ListOrder(key, dir)(r[i], r[j]);
      ListCompareMeaning(key, dir, r[i], r[j]);
    }
  }

  // ---------------------------------------------------------------------
  // Paging

  /** The first `count` rows. */
  function Visible(rows: seq<Row>, count: nat): (r: seq<Row>)
    ensures |r| == MinNat(count, |rows|)
    ensures r <= rows
  {
    if count <= |rows| then rows[..count] else rows
  }

  /** "Load more" is offered while rows are hidden, "show fewer" once more
      than a page is shown. */
  predicate LoadMoreOffered(rows: seq<Row>, count: nat)
  {
    |rows| > count
  }

  predicate ShowFewerOffered(count: nat)
  {
    count > PAGE_SIZE
  }

  function LoadMore(count: nat): (r: nat)
    ensures r == count + PAGE_SIZE
  {
    count + 8
  }

  function ShowFewer(count: nat): (r: nat)
    ensures r == PAGE_SIZE
  {
    8
  }

  /** Loading more reveals between one and eight further rows and keeps the
      ones already shown. */
  lemma LoadMoreReveals(rows: seq<Row>, count: nat)
    requires LoadMoreOffered(rows, count)
    ensures Visible(rows, count) < Visible(rows, LoadMore(count))
    ensures |Visible(rows, LoadMore(count))| <= |Visible(rows, count)| + PAGE_SIZE
  {
  }

  // ---------------------------------------------------------------------
  // Recommendations

  /** A hospital with its distance, travel estimate and score. */
  datatype Scored = Scored(h: LiveHospital, distance: real, eta: real, score: real)

  /** The recommendation score: 100 less travel time, occupancy, fatigue
      and shortage penalties, less 500 for hospital 1 while it is blocked
      and 300 inside the incident region. */
  function Score(h: LiveHospital, eta: real, blocked: bool, mci: MciState): (s: real)
    ensures s == 100.0 - Penalty(h, eta, blocked, mci)
    ensures eta >= 0.0 && h.bedOccupancy >= 0.0 && h.fatigue >= 0.0 ==>
      && s <= 100.0
      && (h.id == 1 && blocked ==> s <= -400.0)
      && (mci.isActive && mci.region == Some(h.region) ==> s <= -200.0)
  {
    var s0 := 100.0;
    var s1 := if h.id == 1 && blocked then s0 - 500.0 else s0;
    var s2 := if mci.isActive && mci.region == Some(h.region) then s1 - 300.0 else s1;
    var s3 := s2 - eta * 2.0 - h.bedOccupancy * 0.5 - h.fatigue * 0.3;
    var s4 := if h.availableBeds < 10.0 then s3 - 50.0 else s3;
    if h.availableIcu < 2.0 then s4 - 50.0 else s4
  }

  /** The total deduction from 100, term by term. */
  function Penalty(h: LiveHospital, eta: real, blocked: bool, mci: MciState): real
  {
    (if h.id == 1 && blocked then 500.0 else 0.0)
    + (if mci.isActive && mci.region == Some(h.region) then 300.0 else 0.0)
    + 2.0 * eta + 0.5 * h.bedOccupancy + 0.3 * h.fatigue
    + (if h.availableBeds < 10.0 then 50.0 else 0.0)
    + (if h.availableIcu < 2.0 then 50.0 else 0.0)
  }

  /** Among otherwise identical hospitals the nearer one scores at least as
      well. */
  lemma NearerScoresHigher(h: LiveHospital, d1: real, d2: real, blocked: bool, mci: MciState)
    requires d1 <= d2
    ensures Score(h, TheniEta(d2), blocked, mci) <= Score(h, TheniEta(d1), blocked, mci)
  {
    TheniEtaMonotone(d1, d2);
  }

  function ScoreAll(live: seq<LiveHospital>, distances: seq<real>, blocked: bool, mci: MciState): (r: seq<Scored>)
    requires |distances| == |live|
    ensures |r| == |live|
    ensures forall i :: 0 <= i < |r| ==>
      && r[i].h == live[i] && r[i].distance == distances[i]
      && r[i].eta == TheniEta(distances[i]) && r[i].score == Score(live[i], r[i].eta, blocked, mci)
  {
    seq(|live|, i requires 0 <= i < |live| =>
      Scored(live[i], distances[i], TheniEta(distances[i]), Score(live[i], TheniEta(distances[i]), blocked, mci)))
  }

  /** `sort((a, b) => b.score - a.score)`: highest score first. */
  function ScoreOrder(): (Scored, Scored) -> bool
  {
    (a: Scored, b: Scored) => b.score - a.score <= 0.0
  }

  lemma ScoreOrderConsistent()
    ensures TotalPreorder(ScoreOrder())
  {
  }

  /** The top three by score, best first; none without a position. */
  function Recommendations(live: seq<LiveHospital>, distances: Option<seq<real>>, blocked: bool, mci: MciState)
    : (r: seq<Scored>)
    requires distances.Some? ==> |distances.value| == |live|
    ensures distances.None? ==> r == []
    ensures distances.Some? ==> |r| == MinNat(TOP_COUNT, |live|)
    ensures forall i, j :: 0 <= i < j < |r| ==> r[i].score >= r[j].score
    ensures distances.Some? ==> multiset(r) <= multiset(ScoreAll(live, distances.value, blocked, mci))
    ensures distances.Some? ==> forall x | x in multiset(ScoreAll(live, distances.value, blocked, mci)) - multiset(r) ::
      forall i | 0 <= i < |r| :: r[i].score >= x.score
  {
    if distances.None? then [] else Top(ScoreAll(live, distances.value, blocked, mci))
  }

  /** The best three of `all`, highest score first. */
  function Top(all: seq<Scored>): (r: seq<Scored>)
    ensures |r| == MinNat(TOP_COUNT, |all|)
    ensures forall i, j :: 0 <= i < j < |r| ==> r[i].score >= r[j].score
    ensures multiset(r) <= multiset(all)
    ensures forall x | x in multiset(all) - multiset(r) :: forall i | 0 <= i < |r| :: r[i].score >= x.score
  {
    ScoreOrderConsistent();
    Best(Sort(all, ScoreOrder()))
  }

  /** The first three of a list already sorted by score. */
  function Best(sorted: seq<Scored>): (r: seq<Scored>)
    requires SortedBy(sorted, ScoreOrder())
    ensures |r| == MinNat(TOP_COUNT, |sorted|)
    ensures forall i, j :: 0 <= i < j < |r| ==> r[i].score >= r[j].score
    ensures multiset(r) <= multiset(sorted)
    ensures forall x | x in multiset(sorted) - multiset(r) :: forall i | 0 <= i < |r| :: r[i].score >= x.score
  {
    var n := MinNat(TOP_COUNT, |sorted|);
    TopPrefix(sorted, n);
    sorted[..n]
  }

  /** The first `n` of a list sorted by score are the best `n`. */
  lemma TopPrefix(sorted: seq<Scored>, n: nat)
    requires SortedBy(sorted, ScoreOrder()) && n <= |sorted|
    ensures forall i, j :: 0 <= i < j < n ==> sorted[i].score >= sorted[j].score
    ensures multiset(sorted[..n]) <= multiset(sorted)
    ensures forall x | x in multiset(sorted) - multiset(sorted[..n]) :: forall i | 0 <= i < n :: sorted[i].score >= x.score
  {
    PrefixPrecedesRest(sorted, n, ScoreOrder());
    assert forall i, j :: 0 <= i < j < n ==> ScoreOrder()(sorted[i], sorted[j]);
  }
}
