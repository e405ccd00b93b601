/** The dashboard's list of chosen queries
    (app/assets/javascripts/sage/controllers/dashboard_controller.js).  The
    `selectedQueries` array is a sequence field that the methods reassign as
    the source's `splice` and `push` do; the rendered list is the row data
    `render` writes: each row's name, the index parameter of its remove
    button and the value of its hidden `query_ids[]` input. */
module DashboardController {
  import opened Sequences

  /** A chosen query.  Ids are compared with `==`; the model keeps the
      string form of each id. */
  datatype Query = Query(id: string, name: string)

  /** What `JSON.parse` makes of a string `queries` value. */
  datatype Decoded = DecodedArray(items: seq<Query>) | DecodedOther | Malformed

  /** The `queries` value: an array, a string holding JSON, or any other
      value. */
  datatype QueriesValue = ArrayValue(items: seq<Query>) | StringValue(decoded: Decoded) | OtherValue

  /** One rendered row: the name shown, the remove button's index param and
      the hidden input's id. */
  datatype Row = Row(name: string, index: nat, queryId: string)

  // ---------------------------------------------------------------------
  // Specification functions
  // ---------------------------------------------------------------------

  /** No two entries share an id. */
  predicate UniqueIds(xs: seq<Query>) {
    forall i, j :: 0 <= i < |xs| && 0 <= j < |xs| && xs[i].id == xs[j].id ==> i == j
  }

  /** `findIndex(q => q.id == id)`. */
  function FirstIndexOf(xs: seq<Query>, id: string): (r: int)
    ensures -1 <= r < |xs|
    ensures r >= 0 ==> xs[r].id == id && forall j :: 0 <= j < r ==> xs[j].id != id
    ensures r == -1 ==> forall j :: 0 <= j < |xs| ==> xs[j].id != id
    decreases |xs|
  {
    if xs == [] then -1
    else if xs[0].id == id then 0
    else
      var k := FirstIndexOf(xs[1..], id);
      if k == -1 then -1 else k + 1
  }

  /** `splice(start, 1)`: the element at the normalised start, if any, is
      removed. */
  function RemoveAt(xs: seq<Query>, start: int): seq<Query> {
    var k := RelativeIndex(|xs|, start);
    if k < |xs| then xs[..k] + xs[k + 1..] else xs
  }

  /** The list after `addQuery(id, name)`. */
  function Added(xs: seq<Query>, id: string, name: string): seq<Query> {
    WithoutFirst(xs, id) + [Query(id, name)]
  }

  /** The list without its first entry holding the id, if there is one. */
  function WithoutFirst(xs: seq<Query>, id: string): seq<Query> {
    var k := FirstIndexOf(xs, id);
    if k == -1 then xs else xs[..k] + xs[k + 1..]
  }

  /** The list after dragging the entry at `from` to `to`. */
  function Moved(xs: seq<Query>, from: nat, to: nat): seq<Query>
    requires from < |xs| && to < |xs|
  {
    var rest := xs[..from] + xs[from + 1..];
    rest[..to] + [xs[from]] + rest[to..]
  }

  /** The entries whose id differs from `id`, in order. */
  function Others(xs: seq<Query>, id: string): (r: seq<Query>)
    ensures |r| <= |xs|
    decreases |xs|
  {
    if xs == [] then []
    else
      var last := xs[|xs| - 1];
      Others(xs[..|xs| - 1], id) + (if last.id != id then [last] else [])
  }

  /** The rows `render` writes, one per entry. */
  function RowsOf(xs: seq<Query>): seq<Row>
    decreases |xs|
  {
    if xs == [] then []
    else
      var last := xs[|xs| - 1];
      RowsOf(xs[..|xs| - 1]) + [Row(last.name, |xs| - 1, last.id)]
  }

  // ---------------------------------------------------------------------
  // The controller
  // ---------------------------------------------------------------------

  class Dashboard {
    const queriesValue: QueriesValue
    const hasQueryList: bool
    var selected: seq<Query>
    /** Whether the list element is displayed. */
    var listShown: bool
    var rows: seq<Row>

    /** What `render` leaves, from the display state before it. */
    ghost predicate RenderedFrom(shown0: bool, rows0: seq<Row>)
      reads this
    {
      if !hasQueryList then listShown == shown0 && rows == rows0
      else if selected == [] then !listShown && rows == rows0
      else listShown && rows == RowsOf(selected)
    }

    constructor (queriesValue: QueriesValue, hasQueryList: bool, listShown: bool)
      ensures this.queriesValue == queriesValue && this.hasQueryList == hasQueryList
      ensures this.listShown == listShown && selected == [] && rows == []
    {
      this.queriesValue := queriesValue;
      this.hasQueryList := hasQueryList;
      this.listShown := listShown;
      selected := [];
      rows := [];
    }

    /** `connect`: a copy of the queries (or none unless they are an array)
        is rendered; text that is not JSON makes `JSON.parse` throw and
        `connect` stop. */
    method Connect() returns (raised: bool)
      modifies this
      ensures raised <==> queriesValue == StringValue(Malformed)
      ensures raised ==> selected == old(selected) && listShown == old(listShown) && rows == old(rows)
      ensures !raised ==>
        selected == (match queriesValue
                     case ArrayValue(items) => items
                     case StringValue(DecodedArray(items)) => items
                     case _ => [])
        && RenderedFrom(old(listShown), old(rows))
    {
      match queriesValue {
        case StringValue(Malformed) =>
          return true;
        case ArrayValue(items) =>
          selected := items;
        case StringValue(DecodedArray(items)) =>
          selected := items;
        case _ =>
          selected := [];
      }
      raised := false;
      Render();
    }

    /** `addQuery`: the first entry with the same id goes, and the new entry
        is appended. */
    method AddQuery(id: string, name: string)
      modifies this
      ensures selected == Added(old(selected), id, name)
      ensures RenderedFrom(old(listShown), old(rows))
    {
      var existingIndex := FirstIndexOf(selected, id);
      if existingIndex != -1 {
        selected := selected[..existingIndex] + selected[existingIndex + 1..];
      }
      selected := selected + [Query(id, name)];
      Render();
    }

    /** `removeQuery`: `splice(index, 1)`. */
    method RemoveQuery(index: int)
      modifies this
      ensures selected == RemoveAt(old(selected), index)
      ensures RenderedFrom(old(listShown), old(rows))
    {
      var start := RelativeIndex(|selected|, index);
      if start < |selected| {
        selected := selected[..start] + selected[start + 1..];
      }
      Render();
    }

    /** Sortable's `onEnd`: the dragged entry is taken out at `oldIndex` and
        put back at `newIndex`.  Sortable reports positions within the
        list. */
    method OnEnd(oldIndex: nat, newIndex: nat)
      requires oldIndex < |selected| && newIndex < |selected|
      modifies this
      ensures selected == Moved(old(selected), oldIndex, newIndex)
      ensures RenderedFrom(old(listShown), old(rows))
    {
      var movedItem := selected[oldIndex];
      selected := selected[..oldIndex] + selected[oldIndex + 1..];
      selected := selected[..newIndex] + [movedItem] + selected[newIndex..];
      Render();
    }

    /** `render`: hides an empty list, otherwise writes one row per entry. */
    method Render()
      modifies this
      ensures RenderedFrom(old(listShown), old(rows))
      ensures selected == old(selected)
    {
      if !hasQueryList {
        return;
      }
      if selected == [] {
        listShown := false;
        return;
      }
      listShown := true;
      var items: seq<Row> := [];
      for i := 0 to |selected|
        invariant items == RowsOf(selected[..i])
      {
        assert selected[..i + 1][..i] == selected[..i];
        items := items + [Row(selected[i].name, i, selected[i].id)];
      }
      assert selected[..|selected|] == selected;
      rows := items;
    }
  }

  // ---------------------------------------------------------------------
  // Properties
  // ---------------------------------------------------------------------

  /** Row `i` shows entry `i`'s name, carries index `i` and submits entry
      `i`'s id. */
  lemma {:induction false} RowsShape(xs: seq<Query>)
    ensures |RowsOf(xs)| == |xs|
    ensures forall i :: 0 <= i < |xs| ==> RowsOf(xs)[i] == Row(xs[i].name, i, xs[i].id)
    decreases |xs|
  {
    if xs != [] {
      RowsShape(xs[..|xs| - 1]);
    }
  }

  /** The new entry is last; the list grows by one exactly when the id was
      absent, and is otherwise the old list with that entry moved to the end
      and renamed. */
  lemma AddedShape(xs: seq<Query>, id: string, name: string)
    ensures var r := Added(xs, id, name);
      r != [] && r[|r| - 1] == Query(id, name)
      && (|r| == |xs| + 1 <==> forall j :: 0 <= j < |xs| ==> xs[j].id != id)
      && ((forall j :: 0 <= j < |xs| ==> xs[j].id != id) ==> r == xs + [Query(id, name)])
  {
  }

  /** With unique ids, what is left after `addQuery` takes out the first
      entry with the id holds no entry with that id, and its ids are still
      unique. */
  lemma RestWithoutId(xs: seq<Query>, id: string)
    requires UniqueIds(xs)
    ensures var rest := WithoutFirst(xs, id);
      (forall j :: 0 <= j < |rest| ==> rest[j].id != id) && UniqueIds(rest)
  {
    var k := FirstIndexOf(xs, id);
    if k != -1 {
      var rest := xs[..k] + xs[k + 1..];
      forall j | 0 <= j < |rest|
        ensures rest[j].id != id
      {
        var j0 := if j < k then j else j + 1;
        assert rest[j] == xs[j0];
      }
      forall i, j | 0 <= i < |rest| && 0 <= j < |rest| && rest[i].id == rest[j].id
        ensures i == j
      {
        var i0 := if i < k then i else i + 1;
        var j0 := if j < k then j else j + 1;
        assert rest[i] == xs[i0] && rest[j] == xs[j0];
      }
    }
  }

  /** Adding keeps the ids unique. */
  lemma AddedKeepsUnique(xs: seq<Query>, id: string, name: string)
    requires UniqueIds(xs)
    ensures UniqueIds(Added(xs, id, name))
  {
    RestWithoutId(xs, id);
    AppendFreshKeepsUnique(WithoutFirst(xs, id), Query(id, name));
  }

  /** Appending an entry with a new id keeps ids unique. */
  lemma AppendFreshKeepsUnique(xs: seq<Query>, q: Query)
    requires UniqueIds(xs) && forall j :: 0 <= j < |xs| ==> xs[j].id != q.id
    ensures UniqueIds(xs + [q])
  {
    var r := xs + [q];
    forall i, j | 0 <= i < |r| && 0 <= j < |r| && r[i].id == r[j].id
      ensures i == j
    {
      if i < |xs| && j < |xs| {
        assert r[i] == xs[i] && r[j] == xs[j];
      }
    }
  }

  /** The other entries' list of two runs is that of the first, then that
      of the second. */
  lemma {:induction false} OthersConcat(a: seq<Query>, b: seq<Query>, id: string)
    ensures Others(a + b, id) == Others(a, id) + Others(b, id)
    decreases |b|
  {
    if b == [] {
      assert a + b == a;
    } else {
      var b0 := b[..|b| - 1];
      assert (a + b)[..|a + b| - 1] == a + b0;
      assert (a + b)[|a + b| - 1] == b[|b| - 1];
      OthersConcat(a, b0, id);
    }
  }

  lemma OthersSingle(q: Query, id: string)
    ensures Others([q], id) == if q.id != id then [q] else []
  {
    assert [q][..0] == [];
  }

  /** When only the entry at `k` has the id, the other entries are the
      list without it. */
  lemma OthersRemoved(xs: seq<Query>, k: nat, id: string)
    requires k < |xs| && xs[k].id == id
    requires forall j :: 0 <= j < |xs| && j != k ==> xs[j].id != id
    ensures Others(xs, id) == xs[..k] + xs[k + 1..]
  {
    var a, b := xs[..k], xs[k + 1..];
    assert xs == a + [xs[k]] + b;
    OthersConcat(a + [xs[k]], b, id);
    OthersConcat(a, [xs[k]], id);
    OthersSingle(xs[k], id);
    forall j | 0 <= j < |b|
      ensures b[j].id != id
    {
      assert b[j] == xs[k + 1 + j];
    }
    OthersAll(a, id);
    OthersAll(b, id);
  }

  /** The entries with other ids keep their relative order when a query is
      added, and only that query's entry changes when ids are unique. */
  lemma AddedKeepsOthers(xs: seq<Query>, id: string, name: string)
    requires UniqueIds(xs)
    ensures Others(Added(xs, id, name), id) == Others(xs, id)
    ensures |Added(xs, id, name)| == |Others(xs, id)| + 1
  {
    var rest := WithoutFirst(xs, id);
    var q := Query(id, name);
    RestWithoutId(xs, id);
    OthersConcat(rest, [q], id);
    OthersSingle(q, id);
    OthersAll(rest, id);
    WithoutFirstIsOthers(xs, id);
  }

  /** With unique ids, taking out the first entry with the id leaves
      exactly the other entries. */
  lemma WithoutFirstIsOthers(xs: seq<Query>, id: string)
    requires UniqueIds(xs)
    ensures WithoutFirst(xs, id) == Others(xs, id)
  {
    var k := FirstIndexOf(xs, id);
    if k == -1 {
      OthersAll(xs, id);
    } else {
      forall j | 0 <= j < |xs| && j != k
        ensures xs[j].id != id
      {
        assert xs[k].id == id;
      }
      OthersRemoved(xs, k, id);
    }
  }

  /** A list without the id is its own list of other entries. */
  lemma {:induction false} OthersAll(xs: seq<Query>, id: string)
    requires forall j :: 0 <= j < |xs| ==> xs[j].id != id
    ensures Others(xs, id) == xs
    decreases |xs|
  {
    if xs != [] {
      OthersAll(xs[..|xs| - 1], id);
    }
  }

  /** `removeQuery` drops exactly the entry at the index (counted from the
      back when negative) and keeps the rest in order; an index past the
      end removes nothing. */
  lemma RemoveAtShape(xs: seq<Query>, index: int)
    ensures 0 <= index < |xs| ==> RemoveAt(xs, index) == xs[..index] + xs[index + 1..]
    ensures -|xs| <= index < 0 ==> RemoveAt(xs, index) == xs[..|xs| + index] + xs[|xs| + index + 1..]
    ensures index >= |xs| ==> RemoveAt(xs, index) == xs
    ensures xs != [] && index < |xs| <==> RelativeIndex(|xs|, index) < |xs|
    ensures var k := RelativeIndex(|xs|, index);
      k < |xs| ==>
        |RemoveAt(xs, index)| == |xs| - 1
        && multiset(RemoveAt(xs, index)) + multiset{xs[k]} == multiset(xs)
  {
    var k := RelativeIndex(|xs|, index);
    if k < |xs| {
      assert xs == xs[..k] + [xs[k]] + xs[k + 1..];
    }
  }

  /** Removing keeps ids unique. */
  lemma RemoveKeepsUnique(xs: seq<Query>, index: int)
    requires UniqueIds(xs)
    ensures UniqueIds(RemoveAt(xs, index))
  {
    var k := RelativeIndex(|xs|, index);
    if k < |xs| {
      var r := xs[..k] + xs[k + 1..];
      assert RemoveAt(xs, index) == r;
      forall i, j | 0 <= i < |r| && 0 <= j < |r| && r[i].id == r[j].id
        ensures i == j
      {
        var i0 := if i < k then i else i + 1;
        var j0 := if j < k then j else j + 1;
        assert r[i] == xs[i0] && r[j] == xs[j0];
      }
    }
  }

  /** A drag is a permutation that puts the dragged entry at its new place
      and keeps the others in order. */
  lemma MovedShape(xs: seq<Query>, from: nat, to: nat)
    requires from < |xs| && to < |xs|
    ensures var r := Moved(xs, from, to);
      |r| == |xs| && r[to] == xs[from]
      && multiset(r) == multiset(xs)
      && r[..to] + r[to + 1..] == xs[..from] + xs[from + 1..]
  {
    var rest := xs[..from] + xs[from + 1..];
    var r := Moved(xs, from, to);
    assert xs == xs[..from] + [xs[from]] + xs[from + 1..];
    assert rest == rest[..to] + rest[to..];
    assert r[..to] == rest[..to];
    assert r[to + 1..] == rest[to..];
    calc {
      multiset(r);
      multiset(rest[..to]) + multiset{xs[from]} + multiset(rest[to..]);
      multiset(rest) + multiset{xs[from]};
      multiset(xs);
    }
  }

  /** A drag keeps ids unique. */
  lemma MovedKeepsUnique(xs: seq<Query>, from: nat, to: nat)
    requires from < |xs| && to < |xs| && UniqueIds(xs)
    ensures UniqueIds(Moved(xs, from, to))
  {
    var r := Moved(xs, from, to);
    MovedShape(xs, from, to);
    forall i, j | 0 <= i < |r| && 0 <= j < |r| && r[i].id == r[j].id
      ensures i == j
    {
      var pi := Origin(from, to, i);
      var pj := Origin(from, to, j);
      MovedOrigin(xs, from, to, i);
      MovedOrigin(xs, from, to, j);
    }
  }

  /** Where entry `i` of a moved list was before the move. */
  function Origin(from: nat, to: nat, i: nat): nat {
    if i == to then from
    else
      var ri := if i < to then i else i - 1;
      if ri < from then ri else ri + 1
  }

  lemma MovedOrigin(xs: seq<Query>, from: nat, to: nat, i: nat)
    requires from < |xs| && to < |xs| && i < |xs|
    ensures Origin(from, to, i) < |xs| && Moved(xs, from, to)[i] == xs[Origin(from, to, i)]
    ensures forall j :: 0 <= j < |xs| && j != i ==> Origin(from, to, j) != Origin(from, to, i)
  {
  }
}
