/** The state ordering of the checks index
    (app/controllers/sage/checks_controller.rb): the current page of checks,
    as the paginator returns it, is sorted by the rank of each check's state
    in a fixed list, unlisted states last. */
module ChecksController {
  import opened Wrappers
  import opened Sequences

  /** A check as the ordering sees it: its id, its query's name and its
      state (nil or a string). */
  datatype Check = Check(id: int, queryName: string, state: Option<string>)

  const StateOrder: seq<Option<string>> :=
    [None, Some("disabled"), Some("error"), Some("timed out"), Some("failing"), Some("passing")]

  /** Ruby's `Array#index`: the first position holding `x`. */
  function IndexOf(xs: seq<Option<string>>, x: Option<string>): (r: Option<nat>)
    ensures r.Some? ==> r.value < |xs| && xs[r.value] == x && forall j :: 0 <= j < r.value ==> xs[j] != x
    ensures r.None? ==> forall j :: 0 <= j < |xs| ==> xs[j] != x
    decreases |xs|
  {
    if xs == [] then None
    else if xs[0] == x then Some(0)
    else match IndexOf(xs[1..], x)
      case None => None
      case Some(k) => Some(k + 1)
  }

  /** `state_order.index(state) || 99`. */
  function Rank(state: Option<string>): nat {
    match IndexOf(StateOrder, state)
    case Some(k) => k
    case None => 99
  }

  function RankOf(c: Check): int {
    Rank(c.state)
  }

  /** The page in the order `sort_by` gives it; `SortBySorted` states
      what that order is. */
  function SortByState(page: seq<Check>): seq<Check> {
    SortBy(page, RankOf)
  }

  // ---------------------------------------------------------------------
  // Properties
  // ---------------------------------------------------------------------

  /** No state is listed twice. */
  lemma StateOrderDistinct()
    ensures forall i, j :: 0 <= i < j < |StateOrder| ==> StateOrder[i] != StateOrder[j]
  {
    assert |StateOrder[1].value| == 8 && |StateOrder[2].value| == 5 && |StateOrder[3].value| == 9;
    assert StateOrder[4].value[0] == 'f' && StateOrder[5].value[0] == 'p';
  }

  /** The ranks follow nil, "disabled", "error", "timed out", "failing",
      "passing": each listed state ranks at its position. */
  lemma RankValues(k: nat)
    requires k < |StateOrder|
    ensures Rank(StateOrder[k]) == k
  {
    StateOrderDistinct();
  }

  /** Every unlisted state ranks 99, after every listed one. */
  lemma RankUnlisted(state: Option<string>)
    ensures state !in StateOrder <==> Rank(state) == 99
    ensures state in StateOrder ==> Rank(state) < |StateOrder|
  {
  }

  /** Within the page, the checks in unlisted states (rank 99, by
      `RankUnlisted`) come last: every check after one in an unlisted state
      is in an unlisted state too. */
  lemma UnlistedLast(page: seq<Check>)
    ensures var r := SortByState(page);
      forall i, j :: 0 <= i <= j < |r| && Rank(r[i].state) == 99 ==> Rank(r[j].state) == 99
  {
    var r := SortByState(page);
    SortBySorted(page, RankOf);
    forall i, j | 0 <= i <= j < |r| && Rank(r[i].state) == 99
      ensures Rank(r[j].state) == 99
    {
      RankBound(r[j].state);
      assert RankOf(r[i]) <= RankOf(r[j]);
    }
  }

  /** A rank is a listed position or 99. */
  lemma RankBound(state: Option<string>)
    ensures Rank(state) == 99 || Rank(state) < |StateOrder|
  {
  }

  /** The sorted page is in rank order and is a permutation of the page. */
  lemma SortByStateOrdered(page: seq<Check>)
    ensures var r := SortByState(page);
      (forall i, j :: 0 <= i < j < |r| ==> Rank(r[i].state) <= Rank(r[j].state))
      && multiset(r) == multiset(page)
  {
    var r := SortByState(page);
    SortBySorted(page, RankOf);
    forall i, j | 0 <= i < j < |r|
      ensures Rank(r[i].state) <= Rank(r[j].state)
    {
      assert RankOf(r[i]) <= RankOf(r[j]);
    }
  }

  /** The sorted page holds exactly the page's checks, each as often as
      before. */
  lemma SortKeepsChecks(page: seq<Check>)
    ensures var r := SortByState(page);
      |r| == |page| && forall c :: c in r <==> c in page
  {
    var r := SortByState(page);
    SortBySorted(page, RankOf);
    assert multiset(r) == multiset(page);
    assert |r| == |multiset(r)|;
    forall c
      ensures c in r <==> c in page
    {
      assert c in r <==> c in multiset(r);
      assert c in page <==> c in multiset(page);
    }
  }

  /** Ruby's `sort_by` is not stable, so it may order checks of equal rank
      differently from `SortByState`.  Every order it may produce, any
      rank-sorted permutation of the page, has the same rank at every
      position as `SortByState`, and when no two checks of the page share a
      rank it is exactly `SortByState`'s order. */
  lemma AnySortAgreesOnRanks(page: seq<Check>, r: seq<Check>)
    requires SortedBy(r, RankOf) && multiset(r) == multiset(page)
    ensures var s := SortByState(page);
      |r| == |s| && forall i :: 0 <= i < |r| ==> Rank(r[i].state) == Rank(s[i].state)
    ensures (forall i, j :: 0 <= i < j < |r| ==> Rank(r[i].state) != Rank(r[j].state)) ==>
      r == SortByState(page)
  {
    var s := SortByState(page);
    SortBySorted(page, RankOf);
    SortedPermutationsAgree(r, s, RankOf);
    if forall i, j :: 0 <= i < j < |r| ==> Rank(r[i].state) != Rank(r[j].state) {
      forall i, j | 0 <= i < j < |r|
        ensures RankOf(r[i]) != RankOf(r[j])
      {
        assert Rank(r[i].state) != Rank(r[j].state);
      }
      SortedDistinctKeysUnique(r, s, RankOf);
    }
  }
}
