/**
 * The monthly report of create_monthly_report (Diary_Library.py): per month
 * a caption row, one row per week, an ИТОГО row; a blank row between
 * months; and after the last month a blank row and the ВСЕГО row.
 */
module Report {
  import opened Results
  import opened Calendar
  import opened Vectors
  import opened Cells
  import opened Grouping

  /** One output row, by what its "№ недели" cell holds. */
  datatype Row =
    | MonthHeader(name: string)           // "<месяц> <год>", other cells empty
    | WeekRow(week: int, values: seq<int>) // "Неделя N" and the week's sums
    | Total(values: seq<int>)              // "ИТОГО" and the month's sums
    | Blank                                // the empty row `{}`
    | GrandTotal(values: seq<int>)         // "ВСЕГО" and the sums over all records

  /** The text of the "№ недели" cell of a row; None for the blank row. */
  function Label(row: Row): Option<string>
  {
    match row
    case MonthHeader(name) => Some(name)
    case WeekRow(week, _) => Some("Неделя " + Numbers.ShowInt(week))
    case Total(_) => Some("ИТОГО")
    case Blank => None
    case GrandTotal(_) => Some("ВСЕГО")
  }

  predicate SameMonth(a: Group, b: Group)
  {
    a.key.year == b.key.year && a.key.month == b.key.month
  }

  /** A group the report can print: a real month and one sum per metric column. */
  predicate Fits(g: Group, w: nat)
  {
    1 <= g.key.month <= 12 && |g.sums| == w
  }

  predicate AllFit(gs: seq<Group>, w: nat)
  {
    forall i :: 0 <= i < |gs| ==> Fits(gs[i], w)
  }

  /** format_month_name of a group's month. */
  function Caption(g: Group): string
    requires 1 <= g.key.month <= 12
  {
    MonthName(g.key.year, g.key.month)
  }

  function Flatten(bs: seq<seq<Group>>): seq<Group>
  {
    if bs == [] then [] else Flatten(bs[..|bs| - 1]) + bs[|bs| - 1]
  }

  /**
   * `bs` cuts `gs` into maximal runs of the same month, in order: the
   * runs put back together are `gs`, none is empty, each holds one month,
   * and neighbouring runs hold different months.
   */
  predicate MonthRuns(bs: seq<seq<Group>>, gs: seq<Group>)
  {
    Flatten(bs) == gs
    && (forall i :: 0 <= i < |bs| ==> bs[i] != [])
    && (forall i, j :: 0 <= i < |bs| && 0 <= j < |bs[i]| ==> SameMonth(bs[i][j], bs[i][0]))
    && (forall i :: 0 < i < |bs| ==> !SameMonth(bs[i - 1][0], bs[i][0]))
  }

  /** The groups cut into months: what the report prints under one month caption each. */
  function Blocks(gs: seq<Group>): (bs: seq<seq<Group>>)
    ensures gs != [] ==> bs != []
  {
    if gs == [] then []
    else
      var bs0, g := Blocks(gs[..|gs| - 1]), gs[|gs| - 1];
      if bs0 != [] && SameMonth(bs0[|bs0| - 1][0], g) then bs0[..|bs0| - 1] + [bs0[|bs0| - 1] + [g]]
      else bs0 + [[g]]
  }

  /** Blocks cuts the groups into maximal runs of one month each. */
  lemma {:induction false} BlocksAreRuns(gs: seq<Group>)
    ensures MonthRuns(Blocks(gs), gs)
  {
    if gs != [] {
      var gs0, g := gs[..|gs| - 1], gs[|gs| - 1];
      var bs0 := Blocks(gs0);
      BlocksAreRuns(gs0);
      assert gs == gs0 + [g];
      if bs0 != [] && SameMonth(bs0[|bs0| - 1][0], g) {
        ExtendRun(bs0, gs0, g);
      } else {
        NewRun(bs0, gs0, g);
      }
    }
  }

  lemma ExtendRun(bs: seq<seq<Group>>, gs: seq<Group>, g: Group)
    requires MonthRuns(bs, gs) && bs != [] && SameMonth(bs[|bs| - 1][0], g)
    ensures MonthRuns(bs[..|bs| - 1] + [bs[|bs| - 1] + [g]], gs + [g])
  {
    var bs' := bs[..|bs| - 1] + [bs[|bs| - 1] + [g]];
    assert bs'[..|bs'| - 1] == bs[..|bs| - 1];
    assert Flatten(bs) == Flatten(bs[..|bs| - 1]) + bs[|bs| - 1];
    assert Flatten(bs') == Flatten(bs[..|bs| - 1]) + (bs[|bs| - 1] + [g]);
  }

  lemma NewRun(bs: seq<seq<Group>>, gs: seq<Group>, g: Group)
    requires MonthRuns(bs, gs) && (bs != [] ==> !SameMonth(bs[|bs| - 1][0], g))
    ensures MonthRuns(bs + [[g]], gs + [g])
  {
    var bs' := bs + [[g]];
    assert bs'[..|bs'| - 1] == bs;
  }

  /** The week rows of a month: "Неделя N" with the group's sums, in group order. */
  function WeekRows(b: seq<Group>): (rows: seq<Row>)
    ensures |rows| == |b|
    ensures forall i :: 0 <= i < |b| ==> rows[i] == WeekRow(b[i].key.week, b[i].sums)
  {
    seq(|b|, i requires 0 <= i < |b| => WeekRow(b[i].key.week, b[i].sums))
  }

  /**
   * The rows a month contributes before its ИТОГО: the separating blank
   * (not before the first month, and only when there are metric columns),
   * the caption, and the week rows.
   */
  function Opening(b: seq<Group>, first: bool, w: nat): seq<Row>
    requires b != [] && 1 <= b[0].key.month <= 12
  {
    (if !first && w > 0 then [Blank] else []) + [MonthHeader(Caption(b[0]))] + WeekRows(b)
  }

  /** The ИТОГО row of a month; absent when there are no metric columns (an empty dict is falsy). */
  function Closing(b: seq<Group>, w: nat): seq<Row>
    requires GroupsWidth(b, w)
  {
    if w > 0 then [Total(VecSum(SumsOf(b), w))] else []
  }

  predicate BlocksFit(bs: seq<seq<Group>>, w: nat)
  {
    forall i :: 0 <= i < |bs| ==> bs[i] != [] && AllFit(bs[i], w)
  }

  function Render(bs: seq<seq<Group>>, w: nat): seq<Row>
    requires BlocksFit(bs, w)
  {
    if bs == [] then []
    else
      var last := bs[|bs| - 1];
      assert last[0] in last;
      Render(bs[..|bs| - 1], w) + Opening(last, |bs| == 1, w) + Closing(last, w)
  }

  /**
   * What create_monthly_report returns for the records `rs` with `w` metric
   * columns: nothing for no records; otherwise the months in order, then a
   * blank row and the ВСЕГО row summed over the records themselves.
   */
  function MonthlyReport(rs: seq<Record>, w: nat): seq<Row>
    requires Width(rs, w)
  {
    if rs == [] then []
    else
      var gs := GroupByWeek(rs, w);
      GroupsFit(rs, w);
      BlocksOfFit(gs, w);
      Render(Blocks(gs), w) + [Blank, GrandTotal(Totals(rs, w))]
  }

  /** Every group of the grouped frame names a real month and has one sum per column. */
  lemma GroupsFit(rs: seq<Record>, w: nat)
    requires Width(rs, w)
    ensures AllFit(GroupByWeek(rs, w), w)
  {
    var gs := GroupByWeek(rs, w);
    forall i | 0 <= i < |gs| ensures Fits(gs[i], w) {
      var g := gs[i];
      assert g in gs;
      assert g.key in KeySet(gs);
      var r :| r in rs && KeyOf(r) == g.key;
    }
  }

  lemma {:induction false} FlattenMember(bs: seq<seq<Group>>, i: nat, j: nat)
    requires i < |bs| && j < |bs[i]|
    ensures bs[i][j] in Flatten(bs)
  {
    if i < |bs| - 1 {
      FlattenMember(bs[..|bs| - 1], i, j);
    }
  }

  lemma MemberFits(gs: seq<Group>, w: nat, g: Group)
    requires AllFit(gs, w) && g in gs
    ensures Fits(g, w)
  {
    var k :| 0 <= k < |gs| && gs[k] == g;
  }

  lemma BlocksOfFit(gs: seq<Group>, w: nat)
    requires AllFit(gs, w)
    ensures BlocksFit(Blocks(gs), w)
  {
    var bs := Blocks(gs);
    BlocksAreRuns(gs);
    forall i | 0 <= i < |bs| ensures bs[i] != [] && AllFit(bs[i], w) {
      forall j | 0 <= j < |bs[i]| ensures Fits(bs[i][j], w) {
        FlattenMember(bs, i, j);
        MemberFits(gs, w, bs[i][j]);
      }
    }
  }

  /** to_number applied to each grouped sum, as the week loop does. */
  function Coerce(vs: seq<int>): (r: seq<int>)
    ensures |r| == |vs|
  {
    seq(|vs|, j requires 0 <= j < |vs| => ToNumber(Int(vs[j])))
  }

  /** The grouped sums are ints already, so to_number leaves them as they are. */
  lemma CoerceInts(vs: seq<int>)
    ensures Coerce(vs) == vs
  {
    assert forall j :: 0 <= j < |vs| ==> Coerce(vs)[j] == vs[j];
  }

  /**
   * create_monthly_report: walks the sorted groups, opening a month whenever
   * the caption changes (closing the previous one with its ИТОГО and a blank
   * row), adds each week row to the running month totals, closes the last
   * month and appends the blank row and ВСЕГО.
   */
  method CreateMonthlyReport(rs: seq<Record>, w: nat) returns (rows: seq<Row>)
    requires Width(rs, w)
    ensures rows == MonthlyReport(rs, w)
  {
    if rs == [] {
      return [];
    }
    var gs := GroupByWeek(rs, w);
    GroupsFit(rs, w);
    var totals, current;
    rows, totals, current := WalkWeeks(gs, w);
    Finish(rs, w, gs, rows, totals, current);
    if |totals| > 0 {
      rows := rows + [Total(totals)];
    }
    rows := rows + [Blank, GrandTotal(Totals(rs, w))];
  }

  /** The loop of create_monthly_report over the sorted groups `gs`. */
  method WalkWeeks(gs: seq<Group>, w: nat) returns (rows: seq<Row>, totals: seq<int>, current: Option<string>)
    requires AllFit(gs, w)
    ensures LoopState(gs, w, rows, totals, current)
    ensures gs != [] ==> current != None && |totals| == w
  {
    rows, totals, current := [], [], None;
    var i := 0;
    while i < |gs|
      invariant 0 <= i <= |gs| && AllFit(gs[..i], w)
      invariant i == 0 ==> rows == [] && totals == [] && current == None
      invariant i > 0 ==> current != None && |totals| == w
      invariant LoopState(gs[..i], w, rows, totals, current)
    {
      rows, totals, current := WeekTurn(gs, i, w, rows, totals, current);
      i := i + 1;
    }
    assert gs[..i] == gs;
  }

  /**
   * One turn of the loop on the group gs[i]: a new caption closes the open
   * month (ИТОГО and a blank row, when one is open and its totals are
   * non-empty) and opens the next one; then the week row is added and its
   * values join the month totals.
   */
  method WeekTurn(gs: seq<Group>, i: nat, w: nat, rows: seq<Row>, totals: seq<int>, current: Option<string>)
    returns (rows': seq<Row>, totals': seq<int>, current': Option<string>)
    requires i < |gs| && AllFit(gs, w) && AllFit(gs[..i], w) && LoopState(gs[..i], w, rows, totals, current)
    requires i == 0 ==> rows == [] && totals == [] && current == None
    requires i > 0 ==> current != None && |totals| == w
    ensures AllFit(gs[..i + 1], w) && LoopState(gs[..i + 1], w, rows', totals', current')
    ensures current' != None && |totals'| == w
  {
    var g := gs[i];
    var name := Caption(g);
    var values := Coerce(g.sums);
    CoerceInts(g.sums);
    assert values == g.sums;
    SliceStep(gs, i);
    if current != Some(name) {
      var closing: seq<Row> := [];
      if current != None && |totals| > 0 {
        closing := [Total(totals), Blank];
      }
      rows' := rows + closing + [MonthHeader(name)] + [WeekRow(g.key.week, values)];
      totals' := AddVec(Zeros(w), values);
      current' := Some(name);
      if i == 0 {
        AdvanceFirst(g, w, gs[..i + 1], rows', totals');
      } else {
        AdvanceNew(gs[..i], g, w, rows, totals, current, gs[..i + 1], rows', totals');
      }
    } else {
      rows' := rows + [WeekRow(g.key.week, values)];
      totals' := AddVec(totals, values);
      current' := current;
      AdvanceSame(gs[..i], g, w, rows, totals, current, gs[..i + 1], rows', totals');
    }
  }

  // ---------------------------------------------------------------------
  // The state of the loop of create_monthly_report

  /**
   * With months `bs` seen: `rows` holds every month but the last in full and
   * the last month without its ИТОГО; `totals` is the running month_totals
   * of that last month and `current` its caption.
   */
  predicate Open(bs: seq<seq<Group>>, w: nat, rows: seq<Row>, totals: seq<int>, current: Option<string>)
    requires BlocksFit(bs, w)
  {
    bs != []
    && var last := bs[|bs| - 1];
    assert Fits(last[0], w);
    rows == Render(bs[..|bs| - 1], w) + Opening(last, |bs| == 1, w)
    && totals == VecSum(SumsOf(last), w)
    && current == Some(Caption(last[0]))
  }

  /** The loop state after the groups `gs`: the initial state, or a month left open. */
  predicate LoopState(gs: seq<Group>, w: nat, rows: seq<Row>, totals: seq<int>, current: Option<string>)
    requires AllFit(gs, w)
  {
    if gs == [] then rows == [] && totals == [] && current == None
    else
      BlocksOfFit(gs, w);
      Open(Blocks(gs), w, rows, totals, current)
  }

  lemma SliceStep<T>(s: seq<T>, i: nat)
    requires i < |s|
    ensures s[..i + 1] == s[..i] + [s[i]]
  {
  }

  /** The first turn of the loop opens the first month. */
  lemma AdvanceFirst(g: Group, w: nat, next: seq<Group>, rows': seq<Row>, totals': seq<int>)
    requires Fits(g, w) && next == [g]
    requires rows' == [MonthHeader(Caption(g)), WeekRow(g.key.week, g.sums)] && totals' == AddVec(Zeros(w), g.sums)
    ensures AllFit(next, w)
    ensures LoopState(next, w, rows', totals', Some(Caption(g)))
  {
    OpenFirst(g, w);
    assert [g][..0] == [];
    assert Blocks([g]) == [[g]];
  }

  /** A turn on a group of another month closes the open month and opens the next. */
  lemma AdvanceNew(gs: seq<Group>, g: Group, w: nat, rows: seq<Row>, totals: seq<int>, current: Option<string>,
                   next: seq<Group>,
                   rows': seq<Row>, totals': seq<int>)
    requires gs != [] && AllFit(gs, w) && Fits(g, w) && LoopState(gs, w, rows, totals, current) && next == gs + [g]
    requires current != Some(Caption(g))
    requires rows' == rows + (if current != None && |totals| > 0 then [Total(totals), Blank] else [])
      + [MonthHeader(Caption(g))] + [WeekRow(g.key.week, g.sums)]
    requires totals' == AddVec(Zeros(w), g.sums)
    ensures AllFit(next, w)
    ensures LoopState(next, w, rows', totals', Some(Caption(g)))
  {
    var bs := Blocks(gs);
    BlocksOfFit(gs, w);
    var last := bs[|bs| - 1];
    assert Open(bs, w, rows, totals, current);
    OtherCaption(last[0], g, w);
    BlocksStep(gs, g);
    OpenNew(bs, g, w, rows, totals, current);
    AllFitAppend(gs, g, w);
  }

  /** A turn on a group of the open month adds its week row and its sums. */
  lemma AdvanceSame(gs: seq<Group>, g: Group, w: nat, rows: seq<Row>, totals: seq<int>, current: Option<string>,
                   next: seq<Group>,
                    rows': seq<Row>, totals': seq<int>)
    requires gs != [] && AllFit(gs, w) && Fits(g, w) && LoopState(gs, w, rows, totals, current) && next == gs + [g]
    requires current == Some(Caption(g))
    requires rows' == rows + [WeekRow(g.key.week, g.sums)]
    requires |totals| == |g.sums| && totals' == AddVec(totals, g.sums)
    ensures AllFit(next, w)
    ensures LoopState(next, w, rows', totals', current)
  {
    var bs := Blocks(gs);
    BlocksOfFit(gs, w);
    var last := bs[|bs| - 1];
    assert Open(bs, w, rows, totals, current);
    SameCaption(last[0], g, w);
    BlocksStep(gs, g);
    OpenSame(bs, g, w, rows, totals, current);
    AllFitAppend(gs, g, w);
  }

  lemma AllFitAppend(gs: seq<Group>, g: Group, w: nat)
    requires AllFit(gs, w) && Fits(g, w)
    ensures AllFit(gs + [g], w)
  {
  }

  /** Two groups of the report with different captions are of different months. */
  lemma OtherCaption(a: Group, b: Group, w: nat)
    requires Fits(a, w) && Fits(b, w) && Caption(a) != Caption(b)
    ensures !SameMonth(a, b)
  {
  }

  /** Two groups of the report with the same caption are of the same month. */
  lemma SameCaption(a: Group, b: Group, w: nat)
    requires Fits(a, w) && Fits(b, w) && Caption(a) == Caption(b)
    ensures SameMonth(a, b)
  {
    MonthNameInjective(a.key.year, a.key.month, b.key.year, b.key.month);
  }

  lemma BlocksStep(gs: seq<Group>, g: Group)
    requires gs != []
    ensures var bs := Blocks(gs);
      Blocks(gs + [g])
      == if SameMonth(bs[|bs| - 1][0], g) then bs[..|bs| - 1] + [bs[|bs| - 1] + [g]] else bs + [[g]]
  {
    assert (gs + [g])[..|gs|] == gs;
  }

  lemma OpenFirst(g: Group, w: nat)
    requires Fits(g, w)
    ensures BlocksFit([[g]], w)
    ensures Open([[g]], w, [MonthHeader(Caption(g)), WeekRow(g.key.week, g.sums)], AddVec(Zeros(w), g.sums), Some(Caption(g)))
  {
    assert [[g]][..0] == [];
    VecSumSingle(g.sums);
    AddVecZeros(g.sums);
    assert SumsOf([g]) == [g.sums];
  }

  lemma OpenNew(bs: seq<seq<Group>>, g: Group, w: nat, rows: seq<Row>, totals: seq<int>, current: Option<string>)
    requires BlocksFit(bs, w) && Fits(g, w) && Open(bs, w, rows, totals, current)
    ensures BlocksFit(bs + [[g]], w)
    ensures Open(bs + [[g]], w,
      rows + (if current != None && |totals| > 0 then [Total(totals), Blank] else []) + [MonthHeader(Caption(g))]
        + [WeekRow(g.key.week, g.sums)],
      AddVec(Zeros(w), g.sums), Some(Caption(g)))
  {
    NewFit(bs, g, w);
    ClosedMonth(bs, w, rows, totals, current);
    SingleSum(g, w);
    NewOpening(g, w);
    var closing := if w > 0 then [Total(totals)] else [];
    var lead := if w > 0 then [Blank] else [];
    Regroup(rows, closing, lead, MonthHeader(Caption(g)), WeekRow(g.key.week, g.sums));
    var bs' := bs + [[g]];
    assert bs'[|bs'| - 1] == [g] && bs'[..|bs'| - 1] == bs && |bs'| != 1;
  }

  lemma Regroup(rows: seq<Row>, closing: seq<Row>, lead: seq<Row>, h: Row, r: Row)
    ensures rows + (closing + lead) + [h] + [r] == (rows + closing) + (lead + [h] + [r])
  {
  }

  /** The rows a month after the first opens with: the separating blank, its caption and its week. */
  lemma NewOpening(g: Group, w: nat)
    requires Fits(g, w)
    ensures Opening([g], false, w)
      == (if w > 0 then [Blank] else []) + [MonthHeader(Caption(g))] + [WeekRow(g.key.week, g.sums)]
  {
    assert WeekRows([g]) == [WeekRow(g.key.week, g.sums)];
  }

  lemma NewFit(bs: seq<seq<Group>>, g: Group, w: nat)
    requires BlocksFit(bs, w) && Fits(g, w)
    ensures BlocksFit(bs + [[g]], w) && (bs + [[g]])[..|bs|] == bs && (bs + [[g]])[|bs|] == [g]
  {
    assert (bs + [[g]])[..|bs|] == bs;
  }

  lemma SingleSum(g: Group, w: nat)
    requires Fits(g, w)
    ensures GroupsWidth([g], w) && VecSum(SumsOf([g]), w) == AddVec(Zeros(w), g.sums)
  {
    VecSumSingle(g.sums);
    AddVecZeros(g.sums);
    assert SumsOf([g]) == [g.sums];
  }

  /** Closing the open month with its ИТОГО gives the rendering of all months seen. */
  lemma ClosedMonth(bs: seq<seq<Group>>, w: nat, rows: seq<Row>, totals: seq<int>, current: Option<string>)
    requires BlocksFit(bs, w) && Open(bs, w, rows, totals, current)
    ensures |totals| == w && current != None
    ensures rows + (if w > 0 then [Total(totals)] else []) == Render(bs, w)
  {
  }

  lemma OpenSame(bs: seq<seq<Group>>, g: Group, w: nat, rows: seq<Row>, totals: seq<int>, current: Option<string>)
    requires BlocksFit(bs, w) && Fits(g, w) && Open(bs, w, rows, totals, current)
    ensures |totals| == w
    ensures BlocksFit(bs[..|bs| - 1] + [bs[|bs| - 1] + [g]], w)
    ensures Open(bs[..|bs| - 1] + [bs[|bs| - 1] + [g]], w, rows + [WeekRow(g.key.week, g.sums)], AddVec(totals, g.sums), current)
  {
    var last := bs[|bs| - 1];
    ExtendFit(bs, g, w);
    OpeningAppend(last, g, |bs| == 1, w);
    MonthSumAppend(last, g, w);
  }

  /** Adding a group to the last month keeps every month fitting, and the months before it as they were. */
  lemma ExtendFit(bs: seq<seq<Group>>, g: Group, w: nat)
    requires BlocksFit(bs, w) && bs != [] && Fits(g, w)
    ensures var n := |bs|; var bs' := bs[..n - 1] + [bs[n - 1] + [g]];
      BlocksFit(bs', w) && |bs'| == n && bs'[..n - 1] == bs[..n - 1] && bs'[n - 1] == bs[n - 1] + [g]
  {
    var n := |bs|;
    var bs' := bs[..n - 1] + [bs[n - 1] + [g]];
    assert bs'[..n - 1] == bs[..n - 1];
    forall i | 0 <= i < n ensures bs'[i] != [] && AllFit(bs'[i], w) {
      if i < n - 1 {
        assert bs'[i] == bs[i];
      }
    }
  }

  lemma OpeningAppend(b: seq<Group>, g: Group, first: bool, w: nat)
    requires b != [] && 1 <= b[0].key.month <= 12
    ensures (b + [g])[0] == b[0]
    ensures Opening(b + [g], first, w) == Opening(b, first, w) + [WeekRow(g.key.week, g.sums)]
  {
    assert WeekRows(b + [g]) == WeekRows(b) + [WeekRow(g.key.week, g.sums)];
  }

  lemma MonthSumAppend(b: seq<Group>, g: Group, w: nat)
    requires AllFit(b, w) && Fits(g, w)
    ensures Uniform(SumsOf(b), w) && Uniform(SumsOf(b + [g]), w)
    ensures VecSum(SumsOf(b + [g]), w) == AddVec(VecSum(SumsOf(b), w), g.sums)
  {
    assert SumsOf(b + [g]) == SumsOf(b) + [g.sums];
    VecSumAppend(SumsOf(b), g.sums, w);
  }

  /** After the loop: the groups are not empty, and closing the last month renders all of them. */
  lemma Finish(rs: seq<Record>, w: nat, gs: seq<Group>, rows: seq<Row>, totals: seq<int>, current: Option<string>)
    requires Width(rs, w) && rs != [] && gs == GroupByWeek(rs, w) && AllFit(gs, w)
    requires LoopState(gs, w, rows, totals, current)
    ensures rows + (if |totals| > 0 then [Total(totals)] else []) + [Blank, GrandTotal(Totals(rs, w))]
      == MonthlyReport(rs, w)
  {
    assert gs != [] by {
      assert KeyOf(rs[0]) in RecordKeys(rs);
    }
    CloseLast(gs, w, rows, totals, current);
  }

  lemma CloseLast(gs: seq<Group>, w: nat, rows: seq<Row>, totals: seq<int>, current: Option<string>)
    requires AllFit(gs, w) && gs != [] && LoopState(gs, w, rows, totals, current)
    ensures BlocksFit(Blocks(gs), w)
    ensures |totals| == w
    ensures rows + (if |totals| > 0 then [Total(totals)] else []) == Render(Blocks(gs), w)
  {
    BlocksOfFit(gs, w);
    ClosedMonth(Blocks(gs), w, rows, totals, current);
  }
}
