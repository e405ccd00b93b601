/** The searchable select box
    (app/javascript/sage/controllers/select_controller.js).  The DOM is
    abstracted: the dropdown element is its two classes, the rendered option
    elements are an array of their `active` classes, and the input and hidden
    fields are their values.  The Stimulus values that the controller only
    reads are constants. */
module SelectController {
  import opened Wrappers
  import opened Text
  import opened Sequences

  /** One option: the value submitted and the label shown. */
  datatype Choice = Choice(value: string, text: string)

  /** What `JSON.parse` makes of a string `options` value. */
  datatype Decoded = DecodedArray(items: seq<Choice>) | DecodedOther | Malformed

  /** The `options` value: an array, a string holding JSON, or any other
      value. */
  datatype OptionsValue = ArrayValue(items: seq<Choice>) | StringValue(decoded: Decoded) | OtherValue

  /** The key of a `keydown` event, as far as `handleKeydown` tells keys
      apart. */
  datatype Key = ArrowDown | ArrowUp | Enter | Escape | OtherKey

  // ---------------------------------------------------------------------
  // Specification functions
  // ---------------------------------------------------------------------

  /** The options after the parsing step shared by `connect`, `search` and
      `focus`: text that does not parse, and anything but an array, give no
      options. */
  function OptionList(v: OptionsValue): seq<Choice> {
    match v
    case ArrayValue(items) => items
    case StringValue(DecodedArray(items)) => items
    case StringValue(_) => []
    case OtherValue => []
  }

  /** `xs.slice(0, end)`: a prefix, of length `end` when that is within the
      list. */
  function Slice(xs: seq<Choice>, end: int): (r: seq<Choice>)
    ensures |r| <= |xs| && r == xs[..|r|]
    ensures 0 <= end ==> |r| == if end < |xs| then end else |xs|
  {
    xs[..RelativeIndex(|xs|, end)]
  }

  /** The filter of `search`: the lower-cased label contains the query. */
  predicate Matches(c: Choice, query: string) {
    Contains(Lower(c.text), query)
  }

  /** The options that match, in their original order. */
  function Matching(xs: seq<Choice>, query: string): (r: seq<Choice>)
    ensures |r| <= |xs|
    decreases |xs|
  {
    if xs == [] then []
    else
      var last := xs[|xs| - 1];
      Matching(xs[..|xs| - 1], query) + (if Matches(last, query) then [last] else [])
  }

  /** The options `search` shows for the lower-cased, trimmed query. */
  function SearchResult(all: seq<Choice>, query: string, max: int): seq<Choice> {
    if query == "" || query == " " then Slice(all, max)
    else Slice(Matching(all, query), max)
  }

  /** `filteredOptions.find(opt => opt.value == selected)`, as an index. */
  function FirstWithValue(xs: seq<Choice>, v: string): (r: Option<nat>)
    ensures r.Some? ==>
      r.value < |xs| && xs[r.value].value == v
      && forall j :: 0 <= j < r.value ==> xs[j].value != v
    ensures r.None? ==> forall j :: 0 <= j < |xs| ==> xs[j].value != v
    decreases |xs|
  {
    if xs == [] then None
    else if xs[0].value == v then Some(0)
    else match FirstWithValue(xs[1..], v)
      case None => None
      case Some(k) => Some(k + 1)
  }

  /** The position of the element `querySelector('.active')` finds among
      the options, or -1 when none is active. */
  function FirstActive(flags: seq<bool>): (r: int)
    ensures -1 <= r < |flags|
    ensures r >= 0 ==> flags[r] && forall j :: 0 <= j < r ==> !flags[j]
    ensures r == -1 ==> forall j :: 0 <= j < |flags| ==> !flags[j]
    decreases |flags|
  {
    if flags == [] then -1
    else if flags[0] then 0
    else
      var k := FirstActive(flags[1..]);
      if k == -1 then -1 else k + 1
  }

  /** The index `navigateOptions` moves to from `current` among `n`
      options. */
  function NextIndex(current: int, direction: int, n: nat): int {
    var next := current + direction;
    var next1 := if next < 0 then n - 1 else next;
    if next1 >= n then 0 else next1
  }

  /** `n` option elements of which only the one at `k` (if any) is
      active. */
  function OnlyAt(n: nat, k: int): (r: seq<bool>)
    ensures |r| == n
    ensures forall j :: 0 <= j < n ==> (r[j] <==> j == k)
  {
    seq(n, j => j == k)
  }

  // ---------------------------------------------------------------------
  // The controller
  // ---------------------------------------------------------------------

  /** The dropdown element's `visible` and `hidden` classes. */
  class Dropdown {
    var visible: bool
    var hidden: bool

    constructor (visible: bool, hidden: bool)
      ensures this.visible == visible && this.hidden == hidden
    {
      this.visible := visible;
      this.hidden := hidden;
    }
  }

  class Select {
    const optionsValue: OptionsValue
    const maxOptions: int
    const hasSelected: bool
    const hasHidden: bool
    const dropdown: Dropdown
    var selectedValue: string
    var inputValue: string
    var hiddenValue: string
    var filtered: seq<Choice>
    /** The rendered option elements, by whether they carry `active`. */
    var optionElements: array<bool>
    /** Whether the dropdown shows the "No results found" element. */
    var noResults: bool
    /** The `select:change` events dispatched so far. */
    var changes: seq<Choice>

    /** One option element per filtered option. */
    ghost predicate Valid()
      reads this
    {
      optionElements.Length == |filtered|
    }

    /** What `renderOptions` leaves: fresh, inactive elements for the
        filtered options, or the "No results found" element. */
    ghost predicate Rendered()
      reads this, optionElements
    {
      optionElements[..] == OnlyAt(|filtered|, -1) && noResults == (filtered == [])
    }

    constructor (optionsValue: OptionsValue, maxOptions: int, hasSelected: bool, selectedValue: string,
                 inputValue: string, hasHidden: bool, hiddenValue: string, dropdown: Dropdown)
      ensures Valid()
      ensures this.optionsValue == optionsValue && this.maxOptions == maxOptions
      ensures this.hasSelected == hasSelected && this.selectedValue == selectedValue
      ensures this.inputValue == inputValue && this.hasHidden == hasHidden
      ensures this.hiddenValue == hiddenValue && this.dropdown == dropdown
      ensures filtered == [] && !noResults && changes == []
    {
      this.optionsValue := optionsValue;
      this.maxOptions := maxOptions;
      this.hasSelected := hasSelected;
      this.selectedValue := selectedValue;
      this.inputValue := inputValue;
      this.hasHidden := hasHidden;
      this.hiddenValue := hiddenValue;
      this.dropdown := dropdown;
      filtered := [];
      optionElements := new bool[0];
      noResults := false;
      changes := [];
    }

    /** `renderOptions`: rebuilds the option elements from `filtered`. */
    method RenderOptions()
      modifies this
      ensures Valid() && Rendered() && fresh(optionElements)
      ensures filtered == old(filtered) && selectedValue == old(selectedValue)
      ensures inputValue == old(inputValue) && hiddenValue == old(hiddenValue)
      ensures changes == old(changes)
    {
      optionElements := new bool[|filtered|](_ => false);
      noResults := filtered == [];
    }

    /** `connect`: shows the first `maxOptions` options and, when a value
        is preselected and among them, puts its label in the input and its
        value in the hidden field. */
    method Connect()
      modifies this
      ensures filtered == Slice(OptionList(optionsValue), maxOptions)
      ensures var pick := if hasSelected && selectedValue != "" then FirstWithValue(filtered, selectedValue) else None;
        (pick.Some? ==>
          inputValue == filtered[pick.value].text
          && hiddenValue == (if hasHidden then filtered[pick.value].value else old(hiddenValue)))
        && (pick.None? ==> inputValue == old(inputValue) && hiddenValue == old(hiddenValue))
      ensures Valid() && Rendered() && fresh(optionElements)
      ensures selectedValue == old(selectedValue) && changes == old(changes)
    {
      filtered := Slice(OptionList(optionsValue), maxOptions);
      if hasSelected && selectedValue != "" {
        var found := FirstWithValue(filtered, selectedValue);
        if found.Some? {
          inputValue := filtered[found.value].text;
          if hasHidden {
            hiddenValue := filtered[found.value].value;
          }
        }
      }
      RenderOptions();
    }

    /** `navigateOptions`: moves the active class one step, wrapping round
        at either end. */
    method NavigateOptions(direction: int)
      requires direction == 1 || direction == -1
      modifies optionElements
      ensures optionElements[..] == OnlyAt(optionElements.Length,
        NextIndex(FirstActive(old(optionElements[..])), direction, optionElements.Length))
    {
      var currentIndex := FirstActive(optionElements[..]);
      var nextIndex := currentIndex + direction;
      if nextIndex < 0 {
        nextIndex := optionElements.Length - 1;
      }
      if nextIndex >= optionElements.Length {
        nextIndex := 0;
      }
      for i := 0 to optionElements.Length
        invariant forall j :: 0 <= j < i ==> !optionElements[j]
      {
        optionElements[i] := false;
      }
      if 0 <= nextIndex < optionElements.Length {
        optionElements[nextIndex] := true;
      }
    }

    /** `search`: the options whose label contains the typed query, at most
        `maxOptions` of them; then the dropdown opens. */
    method Search(typed: string)
      modifies this, dropdown
      ensures filtered == SearchResult(OptionList(optionsValue), JsTrim(Lower(typed)), maxOptions)
      ensures Valid() && Rendered() && fresh(optionElements)
      ensures dropdown.visible && !dropdown.hidden
      ensures selectedValue == old(selectedValue) && inputValue == old(inputValue)
      ensures hiddenValue == old(hiddenValue) && changes == old(changes)
    {
      var query := JsTrim(Lower(typed));
      var options := OptionList(optionsValue);
      if query == "" || query == " " {
        filtered := Slice(options, maxOptions);
      } else {
        filtered := Slice(Matching(options, query), maxOptions);
      }
      RenderOptions();
      OpenDropdown();
    }

    /** `selectOption`: shows the label, records the value (also in the
        hidden field when there is one), dispatches `select:change` and
        closes the dropdown. */
    method SelectOption(value: string, text: string)
      modifies this, dropdown
      ensures inputValue == text && selectedValue == value
      ensures hiddenValue == if hasHidden then value else old(hiddenValue)
      ensures changes == old(changes) + [Choice(value, text)]
      ensures !dropdown.visible && dropdown.hidden
      ensures filtered == old(filtered) && optionElements == old(optionElements) && noResults == old(noResults)
    {
      inputValue := text;
      selectedValue := value;
      if hasHidden {
        hiddenValue := value;
      }
      changes := changes + [Choice(value, text)];
      CloseDropdown();
    }

    method OpenDropdown()
      modifies dropdown
      ensures dropdown.visible && !dropdown.hidden
    {
      dropdown.hidden := false;
      dropdown.visible := true;
    }

    method CloseDropdown()
      modifies dropdown
      ensures !dropdown.visible && dropdown.hidden
    {
      dropdown.visible := false;
      dropdown.hidden := true;
    }

    /** `focus`: with an empty input the first `maxOptions` options come
        back; the dropdown opens in any case. */
    method Focus()
      modifies this, dropdown
      ensures JsTrim(old(inputValue)) == "" ==>
        filtered == Slice(OptionList(optionsValue), maxOptions) && Rendered() && fresh(optionElements)
      ensures JsTrim(old(inputValue)) != "" ==>
        filtered == old(filtered) && optionElements == old(optionElements) && noResults == old(noResults)
      ensures old(Valid()) ==> Valid()
      ensures dropdown.visible && !dropdown.hidden
      ensures selectedValue == old(selectedValue) && inputValue == old(inputValue)
      ensures hiddenValue == old(hiddenValue) && changes == old(changes)
    {
      var currentValue := JsTrim(inputValue);
      TrimmedNotSpace(inputValue);
      if currentValue == "" || currentValue == " " {
        filtered := Slice(OptionList(optionsValue), maxOptions);
        RenderOptions();
      }
      OpenDropdown();
    }

    /** `handleOutsideClick`: a click outside the element closes the
        dropdown. */
    method HandleOutsideClick(inside: bool)
      modifies dropdown
      ensures !inside ==> !dropdown.visible && dropdown.hidden
      ensures inside ==> dropdown.visible == old(dropdown.visible) && dropdown.hidden == old(dropdown.hidden)
    {
      if !inside {
        CloseDropdown();
      }
    }

    /** `handleKeydown`: the arrows navigate, Enter selects the active
        option, Escape closes the dropdown. */
    method HandleKeydown(key: Key)
      requires Valid()
      modifies this, optionElements, dropdown
      ensures key == ArrowDown ==>
        optionElements[..] == OnlyAt(|filtered|, NextIndex(FirstActive(old(optionElements[..])), 1, |filtered|))
      ensures key == ArrowUp ==>
        optionElements[..] == OnlyAt(|filtered|, NextIndex(FirstActive(old(optionElements[..])), -1, |filtered|))
      ensures key == Enter ==> var k := FirstActive(old(optionElements[..]));
        (k >= 0 ==>
          changes == old(changes) + [old(filtered)[k]] && inputValue == old(filtered)[k].text
          && selectedValue == old(filtered)[k].value
          && hiddenValue == (if hasHidden then old(filtered)[k].value else old(hiddenValue))
          && !dropdown.visible && dropdown.hidden)
        && (k < 0 ==>
          changes == old(changes) && selectedValue == old(selectedValue)
          && inputValue == old(inputValue) && hiddenValue == old(hiddenValue)
          && dropdown.visible == old(dropdown.visible) && dropdown.hidden == old(dropdown.hidden))
      ensures key == Escape ==> !dropdown.visible && dropdown.hidden
      ensures key != Enter ==>
        changes == old(changes) && selectedValue == old(selectedValue)
        && inputValue == old(inputValue) && hiddenValue == old(hiddenValue)
      ensures key != ArrowDown && key != ArrowUp ==> optionElements[..] == old(optionElements[..])
      ensures key == ArrowDown || key == ArrowUp || key == OtherKey ==>
        dropdown.visible == old(dropdown.visible) && dropdown.hidden == old(dropdown.hidden)
      ensures Valid() && filtered == old(filtered) && optionElements == old(optionElements)
      ensures noResults == old(noResults)
    {
      match key {
        case ArrowDown =>
          NavigateOptions(1);
        case ArrowUp =>
          NavigateOptions(-1);
        case Enter =>
          var k := FirstActive(optionElements[..]);
          if k >= 0 {
            SelectOption(filtered[k].value, filtered[k].text);
          }
        case Escape =>
          CloseDropdown();
        case OtherKey =>
      }
    }
  }

  // ---------------------------------------------------------------------
  // Properties
  // ---------------------------------------------------------------------

  /** With nothing active, ArrowDown goes to the first option and ArrowUp to
      the last. */
  lemma NavigateFromNone(n: nat)
    requires n > 0
    ensures NextIndex(-1, 1, n) == 0
    ensures NextIndex(-1, -1, n) == n - 1
  {
  }

  /** From an active option the index steps by one and wraps at both ends,
      so it always lands on an option. */
  lemma NavigateWraps(current: int, direction: int, n: nat)
    requires -1 <= current < n && (direction == 1 || direction == -1)
    ensures n > 0 ==> 0 <= NextIndex(current, direction, n) < n
    ensures 0 <= current < n - 1 && direction == 1 ==> NextIndex(current, direction, n) == current + 1
    ensures 0 < current < n && direction == -1 ==> NextIndex(current, direction, n) == current - 1
    ensures current == n - 1 && direction == 1 ==> NextIndex(current, direction, n) == 0
    ensures current == 0 && direction == -1 ==> NextIndex(current, direction, n) == n - 1
  {
  }

  /** After navigation exactly one option is active, unless there are
      none. */
  lemma NavigateLeavesOneActive(flags: seq<bool>, direction: int)
    requires direction == 1 || direction == -1
    ensures var r := OnlyAt(|flags|, NextIndex(FirstActive(flags), direction, |flags|));
      (forall i, j :: 0 <= i < |r| && 0 <= j < |r| && r[i] && r[j] ==> i == j)
      && (flags != [] ==> FirstActive(r) >= 0)
  {
    var n := |flags|;
    var k := NextIndex(FirstActive(flags), direction, n);
    NavigateWraps(FirstActive(flags), direction, n);
    var r := OnlyAt(n, k);
    if flags != [] {
      assert r[k];
    }
  }

  /** The matching options of two lists are those of the first, then those
      of the second. */
  lemma {:induction false} MatchingConcat(a: seq<Choice>, b: seq<Choice>, query: string)
    ensures Matching(a + b, query) == Matching(a, query) + Matching(b, query)
    decreases |b|
  {
    if b == [] {
      assert a + b == a;
    } else {
      var b0 := b[..|b| - 1];
      assert (a + b)[..|a + b| - 1] == a + b0;
      assert (a + b)[|a + b| - 1] == b[|b| - 1];
      MatchingConcat(a, b0, query);
    }
  }

  /** One option is kept exactly when its label contains the query. */
  lemma MatchingSingle(c: Choice, query: string)
    ensures Matching([c], query) == if Matches(c, query) then [c] else []
  {
    assert [c][..0] == [];
  }

  /** An option is among the matching ones exactly when it is an option
      and matches. */
  lemma {:induction false} MatchingMembers(xs: seq<Choice>, query: string)
    ensures forall c :: c in Matching(xs, query) <==> c in xs && Matches(c, query)
    decreases |xs|
  {
    if xs != [] {
      var init := xs[..|xs| - 1];
      MatchingMembers(init, query);
      assert xs == init + [xs[|xs| - 1]];
    }
  }

  /** Trimming never leaves a lone space, so the source's `' '` test never
      fires. */
  lemma TrimmedNotSpace(s: string)
    ensures JsTrim(s) != " "
  {
    TrimByShape(s, IsJsSpace);
  }

  /** `search` shows at most `maxOptions` options: for an empty query the
      first options, otherwise the first options that match, in order. */
  lemma SearchShape(all: seq<Choice>, typed: string, max: int)
    ensures var q := JsTrim(Lower(typed));
      var r := SearchResult(all, q, max);
      q != " "
      && (0 <= max ==> |r| <= max)
      && (q == "" ==> r == all[..|r|] && (0 <= max ==> |r| == if max < |all| then max else |all|))
      && (q != "" ==> r == Matching(all, q)[..|r|] && forall i :: 0 <= i < |r| ==> Matches(r[i], q) && r[i] in all)
  {
    var q := JsTrim(Lower(typed));
    TrimmedNotSpace(Lower(typed));
    if q != "" {
      var m := Matching(all, q);
      var r := SearchResult(all, q, max);
      MatchingMembers(all, q);
      forall i | 0 <= i < |r|
        ensures Matches(r[i], q) && r[i] in all
      {
        assert r[i] == m[i];
        assert m[i] in m;
      }
    }
  }

  /** On connect the shown options are a prefix of the options, at most
      `maxOptions` long; text that does not parse to an array gives none. */
  lemma ConnectShowsPrefix(v: OptionsValue, max: int)
    ensures var r := Slice(OptionList(v), max);
      r == OptionList(v)[..|r|]
      && (0 <= max ==> |r| <= max)
      && (v.OtherValue? || (v.StringValue? && !v.decoded.DecodedArray?) ==> r == [])
  {
  }
}
