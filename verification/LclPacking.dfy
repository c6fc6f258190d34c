/** Greedy consolidation: for every master bill, take the matching house bills in id order while they fit. */
module LclPacking {
  import opened Results
  import opened LclAllocation

  datatype Mbl = Mbl(id: int, maxWeight: real, maxCbm: real, origin: string, destination: string)

  datatype Suggestion = Suggestion(mbl: int, hbls: seq<int>, weight: real, cbm: real, weightUse: real, cbmUse: real)

  // ---------------------------------------------------------------- sorting by id

  function Insert<T>(x: T, sorted: seq<T>, key: T -> int): seq<T> {
    if sorted == [] then [x]
    else if key(x) < key(sorted[0]) then [x] + sorted
    else [sorted[0]] + Insert(x, sorted[1..], key)
  }

  /** Stable: equal keys keep their order. */
  function Sorted<T>(xs: seq<T>, key: T -> int): seq<T> {
    if xs == [] then [] else Insert(xs[|xs| - 1], Sorted(xs[..|xs| - 1], key), key)
  }

  ghost predicate Ordered<T>(xs: seq<T>, key: T -> int) {
    forall i, j :: 0 <= i < j < |xs| ==> key(xs[i]) <= key(xs[j])
  }

  ghost predicate UniqueKeys<T(!new)>(xs: multiset<T>, key: T -> int) {
    (forall x, y :: x in xs && y in xs && key(x) == key(y) ==> x == y) && forall x :: xs[x] <= 1
  }

  lemma {:induction false} InsertContents<T>(x: T, sorted: seq<T>, key: T -> int)
    ensures multiset(Insert(x, sorted, key)) == multiset(sorted) + multiset{x}
    ensures forall y :: y in Insert(x, sorted, key) ==> y == x || y in sorted
    decreases |sorted|
  {
    if sorted != [] {
      assert sorted == [sorted[0]] + sorted[1..];
      InsertContents(x, sorted[1..], key);
    }
  }

  lemma {:induction false} InsertKeeps<T>(x: T, sorted: seq<T>, key: T -> int)
    requires Ordered(sorted, key)
    ensures Ordered(Insert(x, sorted, key), key)
    decreases |sorted|
  {
    if sorted != [] && key(x) >= key(sorted[0]) {
      var rest := Insert(x, sorted[1..], key);
      InsertKeeps(x, sorted[1..], key);
      InsertContents(x, sorted[1..], key);
      forall i | 0 <= i < |rest| ensures key(sorted[0]) <= key(rest[i]) {
        assert rest[i] in rest;
      }
      OrderedCons(sorted[0], rest, key);
    }
  }

  lemma OrderedCons<T>(first: T, rest: seq<T>, key: T -> int)
    requires Ordered(rest, key) && forall i :: 0 <= i < |rest| ==> key(first) <= key(rest[i])
    ensures Ordered([first] + rest, key)
  {
  }

  lemma {:induction false} SortedSorts<T>(xs: seq<T>, key: T -> int)
    ensures Ordered(Sorted(xs, key), key) && multiset(Sorted(xs, key)) == multiset(xs)
    decreases |xs|
  {
    if xs != [] {
      var n := |xs| - 1;
      SortedSorts(xs[..n], key);
      InsertKeeps(xs[n], Sorted(xs[..n], key), key);
      InsertContents(xs[n], Sorted(xs[..n], key), key);
      assert xs == xs[..n] + [xs[n]];
    }
  }

  lemma FirstIsLeast<T>(xs: seq<T>, key: T -> int, x: T)
    requires Ordered(xs, key) && x in multiset(xs)
    ensures key(xs[0]) <= key(x)
  {
    assert x in xs;
  }

  lemma DropFirst<T>(xs: seq<T>)
    requires xs != []
    ensures xs[0] in multiset(xs) && multiset(xs[1..]) == multiset(xs) - multiset{xs[0]}
  {
    assert xs == [xs[0]] + xs[1..];
  }

  lemma UniqueKeysWithout<T(!new)>(all: multiset<T>, x: T, key: T -> int)
    requires UniqueKeys(all, key)
    ensures UniqueKeys(all - multiset{x}, key)
  {
  }

  lemma SameFirst<T(!new)>(xs: seq<T>, ys: seq<T>, key: T -> int)
    requires xs != [] && ys != [] && Ordered(xs, key) && Ordered(ys, key)
    requires multiset(xs) == multiset(ys) && UniqueKeys(multiset(xs), key)
    ensures xs[0] == ys[0] && multiset(xs[1..]) == multiset(ys[1..])
  {
    DropFirst(xs);
    DropFirst(ys);
    FirstIsLeast(xs, key, ys[0]);
    FirstIsLeast(ys, key, xs[0]);
  }

  lemma OrderedTail<T>(xs: seq<T>, key: T -> int)
    requires xs != [] && Ordered(xs, key)
    ensures Ordered(xs[1..], key) && xs == [xs[0]] + xs[1..]
  {
  }

  /** Two ordered arrangements of the same items with unique keys are the same. */
  lemma {:induction false} OrderedIsUnique<T(!new)>(xs: seq<T>, ys: seq<T>, key: T -> int)
    requires Ordered(xs, key) && Ordered(ys, key) && multiset(xs) == multiset(ys) && UniqueKeys(multiset(xs), key)
    ensures xs == ys
    decreases |xs|
  {
    assert |xs| == |multiset(xs)| && |ys| == |multiset(ys)|;
    if xs != [] {
      SameFirst(xs, ys, key);
      DropFirst(xs);
      UniqueKeysWithout(multiset(xs), xs[0], key);
      OrderedTail(xs, key);
      OrderedTail(ys, key);
      OrderedIsUnique(xs[1..], ys[1..], key);
    }
  }

  lemma SortIgnoresOrder<T(!new)>(xs: seq<T>, ys: seq<T>, key: T -> int)
    requires multiset(xs) == multiset(ys) && UniqueKeys(multiset(xs), key)
    ensures Sorted(xs, key) == Sorted(ys, key)
  {
    SortedSorts(xs, key);
    SortedSorts(ys, key);
    OrderedIsUnique(Sorted(xs, key), Sorted(ys, key), key);
  }

  // ---------------------------------------------------------------- packing

  function HblId(h: Hbl): int { h.id }
  function MblId(m: Mbl): int { m.id }

  predicate Matches(m: Mbl, h: Hbl) {
    h.origin == m.origin && h.destination == m.destination
  }

  function Weight(hbls: seq<Hbl>): real {
    if hbls == [] then 0.0 else Weight(hbls[..|hbls| - 1]) + hbls[|hbls| - 1].weight
  }

  function Cbm(hbls: seq<Hbl>): real {
    if hbls == [] then 0.0 else Cbm(hbls[..|hbls| - 1]) + hbls[|hbls| - 1].cbm
  }

  predicate Fits(m: Mbl, chosen: seq<Hbl>, h: Hbl) {
    Weight(chosen) + h.weight <= m.maxWeight && Cbm(chosen) + h.cbm <= m.maxCbm
  }

  /** The matching house bills among these that are taken, in order. */
  function Chosen(m: Mbl, hbls: seq<Hbl>): seq<Hbl> {
    if hbls == [] then [] else
    var before, last := Chosen(m, hbls[..|hbls| - 1]), hbls[|hbls| - 1];
    if Matches(m, last) && Fits(m, before, last) then before + [last] else before
  }

  function Ids(hbls: seq<Hbl>): (ids: seq<int>)
    ensures |ids| == |hbls| && forall i :: 0 <= i < |hbls| ==> ids[i] == hbls[i].id
  {
    seq(|hbls|, i requires 0 <= i < |hbls| => hbls[i].id)
  }

  function Use(total: real, max: real): real {
    if max > 0.0 then total / max * 100.0 else 0.0
  }

  /** A choice as it is reported. */
  function Reported(m: Mbl, chosen: seq<Hbl>): Suggestion {
    Suggestion(m.id, Ids(chosen), Cents(Weight(chosen)), Cents(Cbm(chosen)),
               Cents(Use(Weight(chosen), m.maxWeight)), Cents(Use(Cbm(chosen), m.maxCbm)))
  }

  /** The suggestion for one master bill, if anything fits. */
  function Suggest(m: Mbl, sorted: seq<Hbl>): seq<Suggestion> {
    var chosen := Chosen(m, sorted);
    if chosen == [] then [] else [Reported(m, chosen)]
  }

  function SuggestAll(mbls: seq<Mbl>, sorted: seq<Hbl>): seq<Suggestion> {
    if mbls == [] then [] else SuggestAll(mbls[..|mbls| - 1], sorted) + Suggest(mbls[|mbls| - 1], sorted)
  }

  function Suggestions(mbls: seq<Mbl>, hbls: seq<Hbl>): seq<Suggestion> {
    SuggestAll(Sorted(mbls, MblId), Sorted(hbls, HblId))
  }

  lemma SuggestSnoc(mbls: seq<Mbl>, sorted: seq<Hbl>, n: nat)
    requires n < |mbls|
    ensures SuggestAll(mbls[..n + 1], sorted) == SuggestAll(mbls[..n], sorted) + Suggest(mbls[n], sorted)
  {
    assert mbls[..n + 1][..n] == mbls[..n];
  }

  method GenerateSuggestions(mbls: seq<Mbl>, hbls: seq<Hbl>) returns (suggestions: seq<Suggestion>)
    ensures suggestions == Suggestions(mbls, hbls)
  {
    var mblsSorted, hblsSorted := Sorted(mbls, MblId), Sorted(hbls, HblId);
    suggestions := [];
    for n := 0 to |mblsSorted|
      invariant suggestions == SuggestAll(mblsSorted[..n], hblsSorted)
    {
      var m := mblsSorted[n];
      SuggestSnoc(mblsSorted, hblsSorted, n);
      var suggestion := SuggestOne(m, hblsSorted);
      suggestions := suggestions + suggestion;
    }
    assert mblsSorted[..|mblsSorted|] == mblsSorted;
  }

  method SuggestOne(m: Mbl, sorted: seq<Hbl>) returns (suggestion: seq<Suggestion>)
    ensures suggestion == Suggest(m, sorted)
  {
    var ids, weight, cbm := Pack(m, sorted);
    suggestion := [];
    if ids != [] {
      suggestion :=
        [Suggestion(m.id, ids, Cents(weight), Cents(cbm), Cents(Use(weight, m.maxWeight)), Cents(Use(cbm, m.maxCbm)))];
    }
  }

  method Pack(m: Mbl, sorted: seq<Hbl>) returns (ids: seq<int>, weight: real, cbm: real)
    ensures var chosen := Chosen(m, sorted); ids == Ids(chosen) && weight == Weight(chosen) && cbm == Cbm(chosen)
  {
    ids, weight, cbm := [], 0.0, 0.0;
    for n := 0 to |sorted|
      invariant var chosen := Chosen(m, sorted[..n]); ids == Ids(chosen) && weight == Weight(chosen) && cbm == Cbm(chosen)
    {
      var h := sorted[n];
      assert sorted[..n + 1][..n] == sorted[..n];
      if h.origin == m.origin && h.destination == m.destination {
        if weight + h.weight <= m.maxWeight && cbm + h.cbm <= m.maxCbm {
          ids, weight, cbm := ids + [h.id], weight + h.weight, cbm + h.cbm;
        }
      }
    }
    assert sorted[..|sorted|] == sorted;
  }

  // ---------------------------------------------------------------- guarantees

  /** Whatever the sizes, a non-empty choice is within both capacities. */
  lemma {:induction false} ChoiceFits(m: Mbl, hbls: seq<Hbl>)
    requires Chosen(m, hbls) != []
    ensures Weight(Chosen(m, hbls)) <= m.maxWeight && Cbm(Chosen(m, hbls)) <= m.maxCbm
    decreases |hbls|
  {
    var n := |hbls| - 1;
    var before := Chosen(m, hbls[..n]);
    if Matches(m, hbls[n]) && Fits(m, before, hbls[n]) {
      assert (before + [hbls[n]])[..|before|] == before;
    } else {
      ChoiceFits(m, hbls[..n]);
    }
  }

  /** Only bills of the input are taken, only on the lane, and in the order they come. */
  lemma {:induction false} ChoiceIsFromInput(m: Mbl, hbls: seq<Hbl>)
    ensures forall h :: h in Chosen(m, hbls) ==> h in hbls && h.origin == m.origin && h.destination == m.destination
    ensures Ordered(hbls, HblId) ==> Ordered(Chosen(m, hbls), HblId)
    decreases |hbls|
  {
    if hbls != [] {
      var n := |hbls| - 1;
      var before := Chosen(m, hbls[..n]);
      ChoiceIsFromInput(m, hbls[..n]);
      forall h | h in before ensures h in hbls {
        assert h in hbls[..n];
      }
      if Ordered(hbls, HblId) {
        forall i | 0 <= i < |before| ensures before[i].id <= hbls[n].id {
          assert before[i] in hbls[..n];
          var j :| 0 <= j < n && hbls[j] == before[i];
          assert HblId(hbls[j]) <= HblId(hbls[n]);
        }
      }
    }
  }

  ghost predicate NoNegativeAfter(m: Mbl, hbls: seq<Hbl>, n: nat) {
    forall i :: n <= i < |hbls| && Matches(m, hbls[i]) ==> hbls[i].weight >= 0.0 && hbls[i].cbm >= 0.0
  }

  /** Taking more never lightens the load when nothing that matches and comes later has a negative size. */
  lemma {:induction false} LoadGrows(m: Mbl, hbls: seq<Hbl>, n: nat)
    requires n <= |hbls| && NoNegativeAfter(m, hbls, n)
    ensures Weight(Chosen(m, hbls[..n])) <= Weight(Chosen(m, hbls)) && Cbm(Chosen(m, hbls[..n])) <= Cbm(Chosen(m, hbls))
    decreases |hbls| - n
  {
    if n < |hbls| {
      ChosenSnoc(m, hbls, n);
      LoadGrows(m, hbls, n + 1);
    } else {
      assert hbls[..n] == hbls;
    }
  }

  /** The greedy step: a bill on the lane is taken exactly when it fits beside those taken before it. */
  lemma ChosenSnoc(m: Mbl, hbls: seq<Hbl>, n: nat)
    requires n < |hbls|
    ensures var before, after := Chosen(m, hbls[..n]), Chosen(m, hbls[..n + 1]);
            if && hbls[n].origin == m.origin && hbls[n].destination == m.destination
               && Weight(before) + hbls[n].weight <= m.maxWeight && Cbm(before) + hbls[n].cbm <= m.maxCbm then
              && after == before + [hbls[n]]
              && Weight(after) == Weight(before) + hbls[n].weight && Cbm(after) == Cbm(before) + hbls[n].cbm
            else after == before
  {
    assert hbls[..n + 1][..n] == hbls[..n];
    assert (Chosen(m, hbls[..n]) + [hbls[n]])[..|Chosen(m, hbls[..n])|] == Chosen(m, hbls[..n]);
  }

  lemma {:induction false} ChosenStays(m: Mbl, hbls: seq<Hbl>, n: nat, h: Hbl)
    requires n <= |hbls| && h in Chosen(m, hbls[..n])
    ensures h in Chosen(m, hbls)
    decreases |hbls| - n
  {
    if n < |hbls| {
      assert hbls[..n + 1][..n] == hbls[..n];
      ChosenStays(m, hbls, n + 1, h);
    } else {
      assert hbls[..n] == hbls;
    }
  }

  /**
   The choice is maximal: a matching bill that was left out does not fit beside the final load, unless some
   matching bill after it has a negative size.
   */
  lemma ChoiceIsMaximal(m: Mbl, hbls: seq<Hbl>, n: nat)
    requires n < |hbls| && hbls[n].origin == m.origin && hbls[n].destination == m.destination
    requires hbls[n] !in Chosen(m, hbls) && NoNegativeAfter(m, hbls, n + 1)
    ensures Weight(Chosen(m, hbls)) + hbls[n].weight > m.maxWeight || Cbm(Chosen(m, hbls)) + hbls[n].cbm > m.maxCbm
  {
    ChosenSnoc(m, hbls, n);
    if Fits(m, Chosen(m, hbls[..n]), hbls[n]) {
      ChosenStays(m, hbls, n + 1, hbls[n]);
    }
    LoadGrows(m, hbls, n + 1);
  }

  predicate Reopens(m: Mbl, first: Hbl, second: Hbl) {
    Chosen(m, [first, second]) == [second] && Fits(m, [second], first)
  }

  lemma ChosenOfTwo(m: Mbl, first: Hbl, second: Hbl)
    requires Matches(m, first) && Matches(m, second) && first != second
    ensures Reopens(m, first, second) <==> !Fits(m, [], first) && Fits(m, [], second) && Fits(m, [second], first)
  {
    var both := [first, second];
    assert both[..0] == [] && both[..1] == [first] && both[..2] == both;
    ChosenSnoc(m, both, 0);
    ChosenSnoc(m, both, 1);
  }

  /**
   The guard is needed: of two bills on one lane, some capacities skip the first although it fits in the end,
   exactly when the second has a negative size and the first is larger in it.
   */
  lemma NegativeSizeBreaksMaximality(first: Hbl, second: Hbl, origin: string, destination: string)
    requires first != second && first.origin == second.origin == origin && first.destination == second.destination == destination
    ensures (exists m :: Matches(m, first) && Reopens(m, first, second))
            <==> (second.weight < 0.0 && second.weight < first.weight) || (second.cbm < 0.0 && second.cbm < first.cbm)
  {
    SizesOfOne(first);
    SizesOfOne(second);
    forall m | Matches(m, first) && Reopens(m, first, second)
      ensures (second.weight < 0.0 && second.weight < first.weight) || (second.cbm < 0.0 && second.cbm < first.cbm)
    {
      ChosenOfTwo(m, first, second);
    }
    if second.weight < 0.0 && second.weight < first.weight {
      var m := Mbl(0, Most(first.weight + second.weight, second.weight), Most(first.cbm + second.cbm, second.cbm), origin, destination);
      ChosenOfTwo(m, first, second);
      assert Matches(m, first) && Reopens(m, first, second);
    } else if second.cbm < 0.0 && second.cbm < first.cbm {
      var m := Mbl(0, Most(first.weight + second.weight, second.weight), Most(first.cbm + second.cbm, second.cbm), origin, destination);
      ChosenOfTwo(m, first, second);
      assert Matches(m, first) && Reopens(m, first, second);
    }
  }

  function Most(a: real, b: real): real {
    if a < b then b else a
  }

  lemma SizesOfOne(h: Hbl)
    ensures Weight([h]) == h.weight && Cbm([h]) == h.cbm
  {
    assert [h][..0] == [];
  }

  /** With unique ids the suggestions do not depend on the order the bills are fetched in. */
  lemma SuggestionsIgnoreOrder(mbls: seq<Mbl>, mbls': seq<Mbl>, hbls: seq<Hbl>, hbls': seq<Hbl>)
    requires multiset(mbls) == multiset(mbls') && UniqueKeys(multiset(mbls), MblId)
    requires multiset(hbls) == multiset(hbls') && UniqueKeys(multiset(hbls), HblId)
    ensures Suggestions(mbls, hbls) == Suggestions(mbls', hbls')
  {
    SortIgnoresOrder(mbls, mbls', MblId);
    SortIgnoresOrder(hbls, hbls', HblId);
  }

  /** A load worth suggesting: on the lane, from the input, in id order, within both capacities, and maximal. */
  ghost predicate GoodLoad(m: Mbl, hbls: seq<Hbl>, chosen: seq<Hbl>) {
    && chosen != [] && Ordered(chosen, HblId)
    && (forall h :: h in chosen ==> h in hbls && h.origin == m.origin && h.destination == m.destination)
    && Weight(chosen) <= m.maxWeight && Cbm(chosen) <= m.maxCbm
    && (Unsigned(m, hbls) ==> NoneLeft(m, hbls, chosen))
  }

  /** No further bill of the lane goes with this load. */
  ghost predicate NoneLeft(m: Mbl, hbls: seq<Hbl>, chosen: seq<Hbl>) {
    forall h :: h in hbls && h.origin == m.origin && h.destination == m.destination && h !in chosen ==>
      Weight(chosen) + h.weight > m.maxWeight || Cbm(chosen) + h.cbm > m.maxCbm
  }

  /** No matching house bill has a negative size. */
  ghost predicate Unsigned(m: Mbl, hbls: seq<Hbl>) {
    forall h :: h in hbls && h.origin == m.origin && h.destination == m.destination ==> h.weight >= 0.0 && h.cbm >= 0.0
  }

  lemma SortedMembers<T>(xs: seq<T>, key: T -> int)
    ensures forall x :: x in Sorted(xs, key) <==> x in xs
  {
    SortedSorts(xs, key);
    forall x ensures x in Sorted(xs, key) <==> x in xs {
      assert x in multiset(xs) <==> x in xs;
      assert x in multiset(Sorted(xs, key)) <==> x in Sorted(xs, key);
    }
  }

  lemma ChoiceIsGood(m: Mbl, hbls: seq<Hbl>)
    ensures var chosen := Chosen(m, Sorted(hbls, HblId)); chosen != [] ==> GoodLoad(m, hbls, chosen)
    ensures Unsigned(m, hbls) ==> NoneLeft(m, hbls, Chosen(m, Sorted(hbls, HblId)))
  {
    var sorted := Sorted(hbls, HblId);
    SortedSorts(hbls, HblId);
    SortedMembers(hbls, HblId);
    ChoiceIsFromInput(m, sorted);
    if Chosen(m, sorted) != [] {
      ChoiceFits(m, sorted);
    }
    if Unsigned(m, hbls) {
      forall h | h in hbls && Matches(m, h) && h !in Chosen(m, sorted)
        ensures Weight(Chosen(m, sorted)) + h.weight > m.maxWeight || Cbm(Chosen(m, sorted)) + h.cbm > m.maxCbm
      {
        var n :| 0 <= n < |sorted| && sorted[n] == h;
        ChoiceIsMaximal(m, sorted, n);
      }
    }
  }

  /** The suggestion a master bill gives rise to. */
  predicate Yields(m: Mbl, sorted: seq<Hbl>, s: Suggestion) {
    s in Suggest(m, sorted)
  }

  lemma {:induction false} SuggestionOf(mbls: seq<Mbl>, sorted: seq<Hbl>, s: Suggestion)
    ensures s in SuggestAll(mbls, sorted) <==> exists m :: m in mbls && Yields(m, sorted, s)
    decreases |mbls|
  {
    if mbls != [] {
      var n := |mbls| - 1;
      SuggestionOf(mbls[..n], sorted, s);
      assert mbls == mbls[..n] + [mbls[n]];
      assert s in SuggestAll(mbls, sorted) <==> s in SuggestAll(mbls[..n], sorted) || Yields(mbls[n], sorted, s);
    }
  }

  /** The ids of a load, its sizes to the cent and the percentages of both capacities to the cent. */
  ghost predicate Reports(s: Suggestion, m: Mbl, chosen: seq<Hbl>) {
    && s.mbl == m.id && |s.hbls| == |chosen| && (forall i :: 0 <= i < |chosen| ==> s.hbls[i] == chosen[i].id)
    && Near(s.weight, Weight(chosen)) && Near(s.cbm, Cbm(chosen))
    && (m.maxWeight > 0.0 ==> Near(s.weightUse, Weight(chosen) / m.maxWeight * 100.0))
    && (m.maxCbm > 0.0 ==> Near(s.cbmUse, Cbm(chosen) / m.maxCbm * 100.0))
    && (m.maxWeight <= 0.0 ==> s.weightUse == 0.0) && (m.maxCbm <= 0.0 ==> s.cbmUse == 0.0)
  }

  lemma ReportedReports(m: Mbl, chosen: seq<Hbl>)
    ensures Reports(Reported(m, chosen), m, chosen)
  {
    CentsIsExact(Weight(chosen));
    CentsIsExact(Cbm(chosen));
    CentsIsExact(Use(Weight(chosen), m.maxWeight));
    CentsIsExact(Use(Cbm(chosen), m.maxCbm));
    ZeroCents();
  }

  /** Every suggestion reports, for a master bill of the input, a good load of house bills of the input. */
  lemma SuggestionsAreGood(mbls: seq<Mbl>, hbls: seq<Hbl>, s: Suggestion)
    requires s in Suggestions(mbls, hbls)
    ensures exists m, chosen :: m in mbls && GoodLoad(m, hbls, chosen) && Reports(s, m, chosen)
  {
    SuggestionOf(Sorted(mbls, MblId), Sorted(hbls, HblId), s);
    SortedMembers(mbls, MblId);
    var m :| m in Sorted(mbls, MblId) && Yields(m, Sorted(hbls, HblId), s);
    ChoiceIsGood(m, hbls);
    ReportedReports(m, Chosen(m, Sorted(hbls, HblId)));
    assert m in mbls;
  }

  /** With no negative sizes, every master bill some matching house bill fits alone gets a suggestion. */
  lemma NobodyIsForgotten(mbls: seq<Mbl>, hbls: seq<Hbl>, m: Mbl, h: Hbl)
    requires m in mbls && h in hbls && h.origin == m.origin && h.destination == m.destination
    requires h.weight <= m.maxWeight && h.cbm <= m.maxCbm && Unsigned(m, hbls)
    ensures exists s :: s in Suggestions(mbls, hbls) && s.mbl == m.id
  {
    var chosen := Chosen(m, Sorted(hbls, HblId));
    ChoiceIsGood(m, hbls);
    SortedMembers(mbls, MblId);
    assert chosen != [] && m in Sorted(mbls, MblId) && Yields(m, Sorted(hbls, HblId), Reported(m, chosen));
    SuggestionOf(Sorted(mbls, MblId), Sorted(hbls, HblId), Reported(m, chosen));
    assert Reported(m, chosen).mbl == m.id;
  }
}
