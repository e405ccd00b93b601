/** The chat view's date helpers (app/helpers/sage/application_helper.rb):
    grouping messages by the day they were created, and the relative label
    of a day.  Dates are proleptic Gregorian calendar dates; a message's
    `created_at.to_date` and `Date.current` are inputs. */
module ApplicationHelper {
  import opened Sequences

  // ---------------------------------------------------------------------
  // Calendar dates
  // ---------------------------------------------------------------------

  datatype Civil = Civil(year: int, month: int, day: int)

  predicate LeapYear(y: int) {
    y % 4 == 0 && (y % 100 != 0 || y % 400 == 0)
  }

  function DaysInMonth(y: int, m: int): int {
    if m == 2 then (if LeapYear(y) then 29 else 28)
    else if m == 4 || m == 6 || m == 9 || m == 11 then 30
    else 31
  }

  predicate ValidCivil(c: Civil) {
    1 <= c.month <= 12 && 1 <= c.day <= DaysInMonth(c.year, c.month)
  }

  /** A date that exists in the calendar. */
  type Date = c: Civil | ValidCivil(c) witness Civil(1970, 1, 1)

  /** Chronological order. */
  predicate Before(a: Date, b: Date) {
    a.year < b.year || (a.year == b.year && (a.month < b.month || (a.month == b.month && a.day < b.day)))
  }

  /** `date - 1`: the day before. */
  function PrevDay(d: Date): Date {
    if d.day > 1 then Civil(d.year, d.month, d.day - 1)
    else if d.month > 1 then Civil(d.year, d.month - 1, DaysInMonth(d.year, d.month - 1))
    else Civil(d.year - 1, 12, 31)
  }

  /** A number that orders dates as the calendar does, used as the sort
      key. */
  function Ordinal(d: Date): int {
    d.year * 512 + d.month * 32 + d.day
  }

  // ---------------------------------------------------------------------
  // messages_grouped_by_day
  // ---------------------------------------------------------------------

  /** A message as the grouping sees it: its id and the date it was
      created on. */
  datatype Message = Message(id: int, date: Date)

  datatype Group = Group(date: Date, messages: seq<Message>)

  /** The messages created on `d`, in input order. */
  function OnDay(ms: seq<Message>, d: Date): (r: seq<Message>)
    ensures |r| <= |ms|
    decreases |ms|
  {
    if ms == [] then []
    else
      var last := ms[|ms| - 1];
      OnDay(ms[..|ms| - 1], d) + (if last.date == d then [last] else [])
  }

  /** The position of the group for `d`, or -1. */
  function GroupIndex(gs: seq<Group>, d: Date): (r: int)
    ensures -1 <= r < |gs|
    ensures r >= 0 ==> gs[r].date == d
    ensures r == -1 ==> forall k :: 0 <= k < |gs| ==> gs[k].date != d
    decreases |gs|
  {
    if gs == [] then -1
    else if gs[|gs| - 1].date == d then |gs| - 1
    else GroupIndex(gs[..|gs| - 1], d)
  }

  /** `group_by` taking one more message: appended to its day's group, or
      opening a new group at the end. */
  function AddMessage(gs: seq<Group>, m: Message): seq<Group> {
    var k := GroupIndex(gs, m.date);
    if k == -1 then gs + [Group(m.date, [m])]
    else gs[k := Group(m.date, gs[k].messages + [m])]
  }

  /** `messages.group_by { |message| message.created_at.to_date }`: groups
      in order of each day's first message. */
  function GroupBy(ms: seq<Message>): seq<Group>
    decreases |ms|
  {
    if ms == [] then []
    else AddMessage(GroupBy(ms[..|ms| - 1]), ms[|ms| - 1])
  }

  function GroupKey(g: Group): int {
    Ordinal(g.date)
  }

  /** `messages_grouped_by_day`: the groups sorted by date. */
  function MessagesGroupedByDay(ms: seq<Message>): seq<Group> {
    SortBy(GroupBy(ms), GroupKey)
  }

  /** One group per day, holding exactly that day's messages in input
      order, and a group for every message's day. */
  ghost predicate IsGrouping(gs: seq<Group>, ms: seq<Message>) {
    (forall i, j :: 0 <= i < j < |gs| ==> gs[i].date != gs[j].date)
    && (forall k :: 0 <= k < |gs| ==> gs[k].messages == OnDay(ms, gs[k].date) && gs[k].messages != [])
    && (forall i :: 0 <= i < |ms| ==> GroupIndex(gs, ms[i].date) >= 0)
  }

  // ---------------------------------------------------------------------
  // format_message_date
  // ---------------------------------------------------------------------

  const MonthNames: seq<string> := [
    "January", "February", "March", "April", "May", "June",
    "July", "August", "September", "October", "November", "December"
  ]

  function Digit(n: int): char
    requires 0 <= n < 10
  {
    ('0' as int + n) as char
  }

  /** The decimal digits of `n`, without leading zeros. */
  function Decimal(n: nat): (r: string)
    ensures r != []
    decreases n
  {
    if n < 10 then [Digit(n)] else Decimal(n / 10) + [Digit(n % 10)]
  }

  function Zeros(k: nat): (r: string)
    ensures |r| == k && forall i :: 0 <= i < k ==> r[i] == '0'
  {
    seq(k, _ => '0')
  }

  /** `s` left-padded with zeros to `w` characters. */
  function ZeroPad(s: string, w: nat): string {
    if |s| >= w then s else Zeros(w - |s|) + s
  }

  /** `%d`: the day of the month, two digits. */
  function DayText(day: nat): string {
    ZeroPad(Decimal(day), 2)
  }

  /** `%Y`: the year, at least four digits, with a minus sign before
      year 0. */
  function YearText(y: int): string {
    if y >= 0 then ZeroPad(Decimal(y), 4) else "-" + ZeroPad(Decimal(-y), 4)
  }

  /** `strftime("%B %d")`. */
  function MonthDay(d: Date): string {
    MonthNames[d.month - 1] + " " + DayText(d.day)
  }

  /** `format_message_date(date)` on the day `today`. */
  function FormatMessageDate(date: Date, today: Date): string {
    if date == today then "Today"
    else if date == PrevDay(today) then "Yesterday"
    else if date.year == today.year then MonthDay(date)
    else MonthDay(date) + ", " + YearText(date.year)
  }

  /** The number a string of decimal digits denotes. */
  function DigitsValue(s: string): int
    decreases |s|
  {
    if s == [] then 0 else 10 * DigitsValue(s[..|s| - 1]) + (s[|s| - 1] as int - '0' as int)
  }

  predicate AllDigits(s: string) {
    forall i :: 0 <= i < |s| ==> '0' <= s[i] <= '9'
  }

  predicate NoComma(s: string) {
    forall i :: 0 <= i < |s| ==> s[i] != ','
  }

  /** The position of the first comma, or -1. */
  function FirstComma(s: string): (r: int)
    ensures -1 <= r < |s|
    decreases |s|
  {
    if s == [] then -1
    else if s[0] == ',' then 0
    else
      var k := FirstComma(s[1..]);
      if k < 0 then -1 else k + 1
  }

  // ---------------------------------------------------------------------
  // Properties of the calendar
  // ---------------------------------------------------------------------

  /** The sort key orders dates chronologically and tells them apart. */
  lemma OrdinalOrder(a: Date, b: Date)
    ensures Before(a, b) <==> Ordinal(a) < Ordinal(b)
    ensures a == b <==> Ordinal(a) == Ordinal(b)
  {
  }

  /** `PrevDay(d)` is the latest date before `d`. */
  lemma PrevDayIsPrevious(d: Date)
    ensures Before(PrevDay(d), d)
    ensures forall e: Date :: Before(e, d) ==> e == PrevDay(d) || Before(e, PrevDay(d))
  {
  }

  // ---------------------------------------------------------------------
  // Properties of the grouping
  // ---------------------------------------------------------------------

  /** A message is among a day's messages exactly when it is one of the
      messages and was created that day. */
  lemma {:induction false} OnDayMembers(ms: seq<Message>, d: Date)
    ensures forall m :: m in OnDay(ms, d) <==> m in ms && m.date == d
    decreases |ms|
  {
    if ms != [] {
      var init := ms[..|ms| - 1];
      OnDayMembers(init, d);
      assert ms == init + [ms[|ms| - 1]];
    }
  }

  /** A day's messages keep their input order: the messages of a longer
      list are those of its first part followed by those of the rest. */
  lemma {:induction false} OnDayConcat(a: seq<Message>, b: seq<Message>, d: Date)
    ensures OnDay(a + b, d) == OnDay(a, d) + OnDay(b, d)
    decreases |b|
  {
    if b == [] {
      assert a + b == a;
    } else {
      var init := b[..|b| - 1];
      assert (a + b)[..|a + b| - 1] == a + init;
      OnDayConcat(a, init, d);
    }
  }

  /** A day on which no message was created has no messages. */
  lemma {:induction false} OnDayNone(ms: seq<Message>, d: Date)
    requires forall i :: 0 <= i < |ms| ==> ms[i].date != d
    ensures OnDay(ms, d) == []
    decreases |ms|
  {
    if ms != [] {
      OnDayNone(ms[..|ms| - 1], d);
    }
  }

  /** Taking one more message keeps the grouping a grouping. */
  lemma AddMessageGroups(gs: seq<Group>, init: seq<Message>, m: Message)
    requires IsGrouping(gs, init)
    ensures IsGrouping(AddMessage(gs, m), init + [m])
  {
    var ms := init + [m];
    assert ms[..|ms| - 1] == init;
    var k := GroupIndex(gs, m.date);
    var r := AddMessage(gs, m);
    if k == -1 {
      forall i | 0 <= i < |init|
        ensures init[i].date != m.date
      {
        assert GroupIndex(gs, init[i].date) >= 0;
      }
      OnDayNone(init, m.date);
      forall i | 0 <= i < |ms|
        ensures GroupIndex(r, ms[i].date) >= 0
      {
        if i < |init| {
          GroupIndexGrows(gs, Group(m.date, [m]), init[i].date);
        }
      }
    } else {
      forall i | 0 <= i < |ms|
        ensures GroupIndex(r, ms[i].date) >= 0
      {
        GroupIndexUpdate(gs, k, Group(m.date, gs[k].messages + [m]), ms[i].date);
      }
    }
  }

  /** A date with a group keeps it when a group is appended. */
  lemma GroupIndexGrows(gs: seq<Group>, g: Group, d: Date)
    requires GroupIndex(gs, d) >= 0
    ensures GroupIndex(gs + [g], d) >= 0
  {
    assert (gs + [g])[..|gs|] == gs;
  }

  /** Replacing a group by one for the same date keeps every date's
      group. */
  lemma GroupIndexUpdate(gs: seq<Group>, k: nat, g: Group, d: Date)
    requires k < |gs| && g.date == gs[k].date
    requires GroupIndex(gs, d) >= 0 || d == g.date
    ensures GroupIndex(gs[k := g], d) >= 0
  {
    var r := gs[k := g];
    var j := if GroupIndex(gs, d) >= 0 then GroupIndex(gs, d) else k;
    assert r[j].date == d;
  }

  /** `group_by` gives one group per day, holding that day's messages in
      input order, and a group for every message. */
  lemma {:induction false} GroupByGroups(ms: seq<Message>)
    ensures IsGrouping(GroupBy(ms), ms)
    decreases |ms|
  {
    if ms != [] {
      var init := ms[..|ms| - 1];
      GroupByGroups(init);
      assert ms == init + [ms[|ms| - 1]];
      AddMessageGroups(GroupBy(init), init, ms[|ms| - 1]);
    }
  }

  /** Sorting by date keeps exactly the same groups. */
  lemma SameGroups(gs: seq<Group>, r: seq<Group>)
    requires multiset(r) == multiset(gs)
    ensures forall g :: g in r <==> g in gs
  {
    forall g
      ensures g in r <==> g in gs
    {
      assert g in r <==> g in multiset(r);
      assert g in gs <==> g in multiset(gs);
    }
  }

  /** Groups for distinct days, sorted by date, are in strictly ascending
      date order. */
  lemma SortedGroupsAscend(gs: seq<Group>, r: seq<Group>)
    requires forall i, j :: 0 <= i < j < |gs| ==> gs[i].date != gs[j].date
    requires multiset(r) == multiset(gs) && SortedBy(r, GroupKey)
    ensures forall i, j :: 0 <= i < j < |r| ==> Before(r[i].date, r[j].date)
  {
    SameGroups(gs, r);
    forall i, j | 0 <= i < j < |r|
      ensures Before(r[i].date, r[j].date)
    {
      assert r[i] in gs && r[j] in gs;
      assert GroupKey(r[i]) <= GroupKey(r[j]);
      if r[i] == r[j] {
        RepeatCount(r, i, j);
        DistinctCount(gs, r[i]);
      }
      OrdinalOrder(r[i].date, r[j].date);
    }
  }

  /** The groups come in strictly ascending date order; each holds exactly
      its day's messages, in input order; and every message is in the one
      group of its day. */
  lemma GroupedByDay(ms: seq<Message>)
    ensures var r := MessagesGroupedByDay(ms);
      (forall i, j :: 0 <= i < j < |r| ==> Before(r[i].date, r[j].date))
      && (forall k :: 0 <= k < |r| ==> r[k].messages == OnDay(ms, r[k].date) && r[k].messages != [])
      && (forall i, k :: 0 <= i < |ms| && 0 <= k < |r| ==> (ms[i] in r[k].messages <==> r[k].date == ms[i].date))
      && (forall i :: 0 <= i < |ms| ==> exists k :: 0 <= k < |r| && r[k].date == ms[i].date)
  {
    var gs := GroupBy(ms);
    var r := MessagesGroupedByDay(ms);
    GroupByGroups(ms);
    SortBySorted(gs, GroupKey);
    SortedGroupsAscend(gs, r);
    SameGroups(gs, r);
    forall k | 0 <= k < |r|
      ensures r[k].messages == OnDay(ms, r[k].date) && r[k].messages != []
    {
      assert r[k] in gs;
    }
    forall i, k | 0 <= i < |ms| && 0 <= k < |r|
      ensures ms[i] in r[k].messages <==> r[k].date == ms[i].date
    {
      assert r[k] in gs;
      OnDayMembers(ms, r[k].date);
      assert ms[i] in ms;
    }
    forall i | 0 <= i < |ms|
      ensures exists k :: 0 <= k < |r| && r[k].date == ms[i].date
    {
      var j := GroupIndex(gs, ms[i].date);
      assert gs[j] in r;
    }
  }

  /** In a list without repetitions every value occurs at most once. */
  lemma {:induction false} DistinctCount<T>(xs: seq<T>, x: T)
    requires forall i, j :: 0 <= i < j < |xs| ==> xs[i] != xs[j]
    ensures multiset(xs)[x] <= 1
    decreases |xs|
  {
    if xs != [] {
      var init := xs[..|xs| - 1];
      assert xs == init + [xs[|xs| - 1]];
      DistinctCount(init, x);
      if xs[|xs| - 1] == x {
        assert x !in init;
      }
    }
  }

  /** A value at two positions occurs at least twice. */
  lemma RepeatCount<T>(xs: seq<T>, i: nat, j: nat)
    requires i < j < |xs| && xs[i] == xs[j]
    ensures multiset(xs)[xs[i]] >= 2
  {
    assert xs == xs[..j] + [xs[j]] + xs[j + 1..];
    assert xs[i] in xs[..j];
  }

  // ---------------------------------------------------------------------
  // Properties of the labels
  // ---------------------------------------------------------------------

  /** Reading the digits back gives the number. */
  lemma {:induction false} DecimalValue(n: nat)
    ensures DigitsValue(Decimal(n)) == n && AllDigits(Decimal(n))
    ensures n < 10 ==> |Decimal(n)| == 1
    ensures 10 <= n < 100 ==> |Decimal(n)| == 2
    decreases n
  {
    if n >= 10 {
      DecimalValue(n / 10);
      var s := Decimal(n);
      assert s[..|s| - 1] == Decimal(n / 10);
    }
  }

  /** Leading zeros do not change the number. */
  lemma {:induction false} LeadingZeroValue(s: string)
    ensures DigitsValue("0" + s) == DigitsValue(s)
    decreases |s|
  {
    if s != [] {
      var t := "0" + s;
      assert t[..|t| - 1] == "0" + s[..|s| - 1];
      LeadingZeroValue(s[..|s| - 1]);
    }
  }

  lemma {:induction false} ZerosValue(k: nat, s: string)
    ensures DigitsValue(Zeros(k) + s) == DigitsValue(s)
    decreases k
  {
    if k > 0 {
      assert Zeros(k) + s == "0" + (Zeros(k - 1) + s);
      LeadingZeroValue(Zeros(k - 1) + s);
      ZerosValue(k - 1, s);
    } else {
      assert Zeros(k) + s == s;
    }
  }

  /** Padding keeps the number and adds only zeros. */
  lemma PadValue(n: nat, w: nat)
    ensures DigitsValue(ZeroPad(Decimal(n), w)) == n && AllDigits(ZeroPad(Decimal(n), w))
  {
    DecimalValue(n);
    var s := Decimal(n);
    if |s| < w {
      ZerosValue(w - |s|, s);
    }
  }

  /** `%d` is two digits that read back as the day. */
  lemma DayTextValue(day: nat)
    requires 1 <= day <= 31
    ensures |DayText(day)| == 2 && DigitsValue(DayText(day)) == day && AllDigits(DayText(day))
  {
    DecimalValue(day);
    PadValue(day, 2);
  }

  /** `%Y` starts with a minus sign exactly for the years before 0. */
  lemma YearSign(y: int)
    ensures YearText(y) != [] && (YearText(y)[0] == '-' <==> y < 0)
  {
    var p := if y >= 0 then y else -y;
    PadValue(p, 4);
    var t := ZeroPad(Decimal(p), 4);
    assert t != [] && '0' <= t[0] <= '9';
  }

  /** `%Y` tells years apart. */
  lemma YearTextInjective(a: int, b: int)
    requires YearText(a) == YearText(b)
    ensures a == b
  {
    YearSign(a);
    YearSign(b);
    var pa := if a >= 0 then a else -a;
    var pb := if b >= 0 then b else -b;
    PadValue(pa, 4);
    PadValue(pb, 4);
    if a < 0 {
      assert ZeroPad(Decimal(pa), 4) == YearText(a)[1..];
      assert ZeroPad(Decimal(pb), 4) == YearText(b)[1..];
    }
  }

  lemma MonthNamesShape()
    ensures forall i, j :: 0 <= i < j < 12 ==> MonthNames[i] != MonthNames[j]
    ensures forall i :: 0 <= i < 12 ==> MonthNames[i] != [] && MonthNames[i][0] != 'T' && MonthNames[i][0] != 'Y'
    ensures forall i, c :: 0 <= i < 12 && 0 <= c < |MonthNames[i]| ==> MonthNames[i][c] != ','
  {
  }

  /** A string without commas has no first comma. */
  lemma {:induction false} FirstCommaNone(s: string)
    requires NoComma(s)
    ensures FirstComma(s) == -1
    decreases |s|
  {
    if s != [] {
      FirstCommaNone(s[1..]);
    }
  }

  /** The first comma after a stretch without commas. */
  lemma {:induction false} FirstCommaAfter(x: string, t: string)
    requires NoComma(x) && t != [] && t[0] == ','
    ensures FirstComma(x + t) == |x|
    decreases |x|
  {
    if x == [] {
      assert x + t == t;
    } else {
      assert (x + t)[1..] == x[1..] + t;
      FirstCommaAfter(x[1..], t);
    }
  }

  /** `%B %d` has no comma and starts with the month's name. */
  lemma MonthDayShape(d: Date)
    ensures NoComma(MonthDay(d)) && MonthDay(d)[0] == MonthNames[d.month - 1][0]
    ensures |MonthDay(d)| == |MonthNames[d.month - 1]| + 3
  {
    MonthNamesShape();
    DayTextValue(d.day);
  }

  /** `%B %d` tells the days of a year apart. */
  lemma MonthDayInjective(a: Date, b: Date)
    requires MonthDay(a) == MonthDay(b)
    ensures a.month == b.month && a.day == b.day
  {
    MonthNamesShape();
    MonthDayShape(a);
    MonthDayShape(b);
    DayTextValue(a.day);
    DayTextValue(b.day);
    var s := MonthDay(a);
    assert MonthNames[a.month - 1] == s[..|s| - 3] == MonthNames[b.month - 1];
    assert DayText(a.day) == s[|s| - 2..] == DayText(b.day);
  }

  /** A date that is neither today nor yesterday is labelled by month and
      day, with a comma and the year exactly when the year is not this
      year's. */
  lemma OrdinaryLabel(date: Date, today: Date)
    requires date != today && date != PrevDay(today)
    ensures var shown := FormatMessageDate(date, today);
      shown != [] && shown[0] != 'T' && shown[0] != 'Y'
      && (FirstComma(shown) >= 0 <==> date.year != today.year)
  {
    MonthNamesShape();
    MonthDayShape(date);
    if date.year == today.year {
      FirstCommaNone(MonthDay(date));
    } else {
      FirstCommaAfter(MonthDay(date), ", " + YearText(date.year));
      assert MonthDay(date) + ", " + YearText(date.year) == MonthDay(date) + (", " + YearText(date.year));
    }
  }

  lemma SpecialLabels()
    ensures FirstComma("Today") == -1 && FirstComma("Yesterday") == -1
  {
    assert "Today"[1..] == "oday" && "Yesterday"[1..] == "esterday";
  }

  /** What each kind of label says: "Today" for today only, "Yesterday"
      for the day before only, and a comma exactly when the date is in
      another year than today. */
  lemma LabelKinds(date: Date, today: Date)
    ensures FormatMessageDate(date, today) == "Today" <==> date == today
    ensures FormatMessageDate(date, today) == "Yesterday" <==> date == PrevDay(today)
    ensures FirstComma(FormatMessageDate(date, today)) >= 0 <==>
      date != today && date != PrevDay(today) && date.year != today.year
  {
    PrevDayIsPrevious(today);
    SpecialLabels();
    if date != today && date != PrevDay(today) {
      OrdinaryLabel(date, today);
    }
  }

  /** Two strings joined to their tails by the first comma split back
      into the same parts. */
  lemma SplitAtComma(x: string, s: string, y: string, t: string)
    requires NoComma(x) && NoComma(y) && x + ", " + s == y + ", " + t
    ensures x == y && s == t
  {
    var whole := x + (", " + s);
    assert x + ", " + s == whole && y + ", " + t == y + (", " + t);
    FirstCommaAfter(x, ", " + s);
    FirstCommaAfter(y, ", " + t);
    assert x == whole[..|x|] && y == whole[..|y|];
    assert s == whole[|x| + 2..] && t == whole[|y| + 2..];
  }

  /** `%B %d, %Y` tells dates apart. */
  lemma DatedLabelInjective(a: Date, b: Date)
    requires MonthDay(a) + ", " + YearText(a.year) == MonthDay(b) + ", " + YearText(b.year)
    ensures a == b
  {
    MonthDayShape(a);
    MonthDayShape(b);
    SplitAtComma(MonthDay(a), YearText(a.year), MonthDay(b), YearText(b.year));
    MonthDayInjective(a, b);
    YearTextInjective(a.year, b.year);
  }

  /** The label names one date: two dates with the same label on the same
      day are the same date. */
  lemma LabelDeterminesDate(a: Date, b: Date, today: Date)
    requires FormatMessageDate(a, today) == FormatMessageDate(b, today)
    ensures a == b
  {
    LabelKinds(a, today);
    LabelKinds(b, today);
    if a != today && a != PrevDay(today) {
      MonthDayShape(a);
      MonthDayShape(b);
      if a.year == today.year {
        MonthDayInjective(a, b);
      } else {
        DatedLabelInjective(a, b);
      }
    }
  }
}
