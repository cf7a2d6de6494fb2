/**
 * What the rows of the monthly report say, read back from the rows
 * themselves: which week rows it holds, what each ИТОГО and the ВСЕГО row
 * add up, and which month captions it prints.
 */
module Layout {
  import opened Results
  import opened Calendar
  import opened Vectors
  import opened Grouping
  import opened Report

  predicate IsWeek(r: Row) { r.WeekRow? }
  predicate IsTotal(r: Row) { r.Total? }
  predicate IsCaption(r: Row) { r.MonthHeader? }

  /** The rows that `keep` selects, in report order. */
  function Only(rows: seq<Row>, keep: Row -> bool): (r: seq<Row>)
    ensures |r| <= |rows|
    ensures forall i :: 0 <= i < |r| ==> keep(r[i])
  {
    if rows == [] then []
    else Only(rows[..|rows| - 1], keep) + (if keep(rows[|rows| - 1]) then [rows[|rows| - 1]] else [])
  }

  lemma {:induction false} OnlyConcat(a: seq<Row>, b: seq<Row>, keep: Row -> bool)
    ensures Only(a + b, keep) == Only(a, keep) + Only(b, keep)
    decreases |b|
  {
    if b == [] {
      assert a + b == a;
    } else {
      var b' := b[..|b| - 1];
      assert (a + b)[..|a + b| - 1] == a + b';
      OnlyConcat(a, b', keep);
    }
  }

  lemma {:induction false} OnlyAll(rows: seq<Row>, keep: Row -> bool)
    requires forall i :: 0 <= i < |rows| ==> keep(rows[i])
    ensures Only(rows, keep) == rows
  {
    if rows != [] {
      OnlyAll(rows[..|rows| - 1], keep);
    }
  }

  lemma {:induction false} OnlyNone(rows: seq<Row>, keep: Row -> bool)
    requires forall i :: 0 <= i < |rows| ==> !keep(rows[i])
    ensures Only(rows, keep) == []
  {
    if rows != [] {
      OnlyNone(rows[..|rows| - 1], keep);
    }
  }

  /** The values of the ИТОГО rows, top to bottom. */
  function TotalsIn(rows: seq<Row>): (t: seq<seq<int>>)
    ensures |t| == |Only(rows, IsTotal)|
  {
    var o := Only(rows, IsTotal);
    seq(|o|, i requires 0 <= i < |o| => o[i].values)
  }

  /** The month captions, top to bottom. */
  function CaptionsIn(rows: seq<Row>): (c: seq<string>)
    ensures |c| == |Only(rows, IsCaption)|
  {
    var o := Only(rows, IsCaption);
    seq(|o|, i requires 0 <= i < |o| => o[i].name)
  }

  lemma TotalsInConcat(a: seq<Row>, b: seq<Row>)
    ensures TotalsIn(a + b) == TotalsIn(a) + TotalsIn(b)
  {
    OnlyConcat(a, b, IsTotal);
  }

  lemma CaptionsInConcat(a: seq<Row>, b: seq<Row>)
    ensures CaptionsIn(a + b) == CaptionsIn(a) + CaptionsIn(b)
  {
    OnlyConcat(a, b, IsCaption);
  }

  // ---------------------------------------------------------------------
  // The week rows

  lemma WeekRowsConcat(a: seq<Group>, b: seq<Group>)
    ensures WeekRows(a + b) == WeekRows(a) + WeekRows(b)
  {
  }

  /** The week rows of one month are its opening's only week rows. */
  lemma WeeksOfMonth(b: seq<Group>, first: bool, w: nat)
    requires b != [] && AllFit(b, w)
    ensures Only(Opening(b, first, w), IsWeek) == WeekRows(b)
  {
    assert Fits(b[0], w);
    var head := (if !first && w > 0 then [Blank] else []) + [MonthHeader(Caption(b[0]))];
    assert Opening(b, first, w) == head + WeekRows(b);
    OnlyConcat(head, WeekRows(b), IsWeek);
    HeadNoWeeks(!first && w > 0, Caption(b[0]));
    AllWeeks(b);
  }

  lemma HeadNoWeeks(blank: bool, caption: string)
    ensures Only((if blank then [Blank] else []) + [MonthHeader(caption)], IsWeek) == []
  {
    OnlyNone((if blank then [Blank] else []) + [MonthHeader(caption)], IsWeek);
  }

  lemma AllWeeks(b: seq<Group>)
    ensures Only(WeekRows(b), IsWeek) == WeekRows(b)
  {
    OnlyAll(WeekRows(b), IsWeek);
  }

  lemma ClosingNoWeeks(b: seq<Group>, w: nat)
    requires GroupsWidth(b, w)
    ensures Only(Closing(b, w), IsWeek) == []
  {
    OnlyNone(Closing(b, w), IsWeek);
  }

  lemma {:induction false} WeeksOfRender(bs: seq<seq<Group>>, w: nat)
    requires BlocksFit(bs, w)
    ensures Only(Render(bs, w), IsWeek) == WeekRows(Flatten(bs))
  {
    if bs != [] {
      var init, last := bs[..|bs| - 1], bs[|bs| - 1];
      WeeksOfRender(init, w);
      var o, c := Opening(last, |bs| == 1, w), Closing(last, w);
      OnlyConcat(Render(init, w) + o, c, IsWeek);
      OnlyConcat(Render(init, w), o, IsWeek);
      WeeksOfMonth(last, |bs| == 1, w);
      assert GroupsWidth(last, w) by {
        assert AllFit(last, w);
      }
      ClosingNoWeeks(last, w);
      WeekRowsConcat(Flatten(init), last);
    }
  }

  lemma NoRecordsNoGroups(rs: seq<Record>, w: nat)
    requires Width(rs, w) && rs == []
    ensures GroupByWeek(rs, w) == []
  {
  }

  /**
   * The report holds one "Неделя N" row per (year, month, week) group of the
   * records, in the sorted order of the groups, each with that group's sums.
   */
  lemma ReportWeeks(rs: seq<Record>, w: nat)
    requires Width(rs, w)
    ensures Only(MonthlyReport(rs, w), IsWeek) == WeekRows(GroupByWeek(rs, w))
  {
    if rs == [] {
      NoRecordsNoGroups(rs, w);
    } else {
      ReportParts(rs, w);
      WeeksOfReport(GroupByWeek(rs, w), Totals(rs, w), w);
    }
  }

  lemma WeeksOfReport(gs: seq<Group>, total: seq<int>, w: nat)
    requires AllFit(gs, w)
    ensures BlocksFit(Blocks(gs), w)
    ensures Only(Render(Blocks(gs), w) + [Blank, GrandTotal(total)], IsWeek) == WeekRows(gs)
  {
    WeeksOfGroups(gs, w);
    OnlyConcat(Render(Blocks(gs), w), [Blank, GrandTotal(total)], IsWeek);
    FooterNoWeeks(total);
  }

  lemma FooterNoWeeks(total: seq<int>)
    ensures Only([Blank, GrandTotal(total)], IsWeek) == []
  {
    OnlyNone([Blank, GrandTotal(total)], IsWeek);
  }

  lemma WeeksOfGroups(gs: seq<Group>, w: nat)
    requires AllFit(gs, w)
    ensures BlocksFit(Blocks(gs), w)
    ensures Only(Render(Blocks(gs), w), IsWeek) == WeekRows(gs)
  {
    BlocksOfFit(gs, w);
    BlocksAreRuns(gs);
    WeeksOfRender(Blocks(gs), w);
  }

  // ---------------------------------------------------------------------
  // ИТОГО and ВСЕГО

  lemma SumsOfConcat(a: seq<Group>, b: seq<Group>)
    ensures SumsOf(a + b) == SumsOf(a) + SumsOf(b)
  {
  }

  lemma FitUniform(b: seq<Group>, w: nat)
    requires AllFit(b, w)
    ensures Uniform(SumsOf(b), w)
  {
    forall i | 0 <= i < |b| ensures |SumsOf(b)[i]| == w {
      assert Fits(b[i], w);
    }
  }

  lemma FlattenFits(bs: seq<seq<Group>>, w: nat)
    requires BlocksFit(bs, w)
    ensures AllFit(Flatten(bs), w)
  {
    var f := Flatten(bs);
    forall k | 0 <= k < |f| ensures Fits(f[k], w) {
      var i, j := FlattenFind(bs, k);
    }
  }

  /** Position k of the flattened months is position j of month i. */
  lemma {:induction false} FlattenFind(bs: seq<seq<Group>>, k: nat) returns (i: nat, j: nat)
    requires k < |Flatten(bs)|
    ensures i < |bs| && j < |bs[i]| && Flatten(bs)[k] == bs[i][j]
  {
    var init := bs[..|bs| - 1];
    if k < |Flatten(init)| {
      i, j := FlattenFind(init, k);
    } else {
      i, j := |bs| - 1, k - |Flatten(init)|;
    }
  }

  /** One month's rows hold exactly one ИТОГО, its month's sums, when there are metric columns. */
  lemma TotalsOfMonth(b: seq<Group>, first: bool, w: nat)
    requires b != [] && AllFit(b, w) && w > 0
    ensures Uniform(SumsOf(b), w)
    ensures TotalsIn(Opening(b, first, w) + Closing(b, w)) == [VecSum(SumsOf(b), w)]
  {
    FitUniform(b, w);
    var o := Opening(b, first, w);
    OnlyConcat(o, Closing(b, w), IsTotal);
    assert Fits(b[0], w);
    assert forall i :: 0 <= i < |o| ==> !o[i].Total?;
    OnlyNone(o, IsTotal);
  }

  /** Render peels off its last month. */
  lemma RenderLast(bs: seq<seq<Group>>, w: nat)
    requires BlocksFit(bs, w) && bs != []
    ensures BlocksFit(bs[..|bs| - 1], w) && bs[|bs| - 1] != [] && AllFit(bs[|bs| - 1], w)
    ensures Render(bs, w) == Render(bs[..|bs| - 1], w)
      + (Opening(bs[|bs| - 1], |bs| == 1, w) + Closing(bs[|bs| - 1], w))
    ensures Flatten(bs) == Flatten(bs[..|bs| - 1]) + bs[|bs| - 1]
  {
  }

  /** Adding one month's ИТОГО to the totals so far adds that month's groups. */
  lemma AddMonthTotal(t: seq<seq<int>>, a: seq<Group>, b: seq<Group>, w: nat)
    requires Uniform(t, w) && AllFit(a, w) && AllFit(b, w)
    requires Uniform(SumsOf(a), w) && Uniform(SumsOf(b), w)
    requires VecSum(t, w) == VecSum(SumsOf(a), w)
    ensures Uniform(t + [VecSum(SumsOf(b), w)], w) && Uniform(SumsOf(a + b), w)
    ensures VecSum(t + [VecSum(SumsOf(b), w)], w) == VecSum(SumsOf(a + b), w)
  {
    VecSumAppend(t, VecSum(SumsOf(b), w), w);
    SumsOfConcat(a, b);
    VecSumConcat(SumsOf(a), SumsOf(b), w);
  }

  /** The ИТОГО rows of the months add up, column by column, to the sums of all their groups. */
  lemma {:induction false} TotalsOfRender(bs: seq<seq<Group>>, w: nat)
    requires BlocksFit(bs, w) && w > 0
    ensures Uniform(TotalsIn(Render(bs, w)), w) && Uniform(SumsOf(Flatten(bs)), w)
    ensures VecSum(TotalsIn(Render(bs, w)), w) == VecSum(SumsOf(Flatten(bs)), w)
  {
    if bs == [] {
      OnlyNone([], IsTotal);
    } else {
      var init, last := bs[..|bs| - 1], bs[|bs| - 1];
      RenderLast(bs, w);
      TotalsOfRender(init, w);
      var month := Opening(last, |bs| == 1, w) + Closing(last, w);
      TotalsInConcat(Render(init, w), month);
      TotalsOfMonth(last, |bs| == 1, w);
      FlattenFits(init, w);
      AddMonthTotal(TotalsIn(Render(init, w)), Flatten(init), last, w);
    }
  }

  /** MonthlyReport of some records, taken apart: the rendered months and the closing two rows. */
  lemma ReportParts(rs: seq<Record>, w: nat)
    requires Width(rs, w) && rs != []
    ensures AllFit(GroupByWeek(rs, w), w) && BlocksFit(Blocks(GroupByWeek(rs, w)), w)
    ensures MonthlyReport(rs, w)
      == Render(Blocks(GroupByWeek(rs, w)), w) + [Blank, GrandTotal(Totals(rs, w))]
  {
    GroupsFit(rs, w);
    BlocksOfFit(GroupByWeek(rs, w), w);
  }

  lemma TotalsOfGroups(gs: seq<Group>, w: nat)
    requires AllFit(gs, w) && w > 0
    ensures BlocksFit(Blocks(gs), w) && Uniform(SumsOf(gs), w)
    ensures Uniform(TotalsIn(Render(Blocks(gs), w)), w)
    ensures VecSum(TotalsIn(Render(Blocks(gs), w)), w) == VecSum(SumsOf(gs), w)
  {
    BlocksOfFit(gs, w);
    BlocksAreRuns(gs);
    TotalsOfRender(Blocks(gs), w);
  }

  /**
   * With at least one record and one metric column, the last row is ВСЕГО;
   * it holds the column sums of all records, which are also the column
   * sums of the ИТОГО rows above it.
   */
  lemma ReportGrandTotal(rs: seq<Record>, w: nat)
    requires Width(rs, w) && rs != [] && w > 0
    ensures var rows := MonthlyReport(rs, w);
      |rows| >= 2 && rows[|rows| - 2] == Blank && rows[|rows| - 1] == GrandTotal(Totals(rs, w))
      && Uniform(TotalsIn(rows), w) && VecSum(TotalsIn(rows), w) == Totals(rs, w)
  {
    ReportParts(rs, w);
    TotalsOfReport(GroupByWeek(rs, w), Totals(rs, w), w);
  }

  lemma NoTotalsAfter(r: seq<Row>, tail: seq<Row>)
    requires |tail| == 2 && tail[0] == Blank && tail[1].GrandTotal?
    ensures TotalsIn(r + tail) == TotalsIn(r)
  {
    TotalsInConcat(r, tail);
    OnlyNone(tail, IsTotal);
  }

  lemma TotalsOfReport(gs: seq<Group>, total: seq<int>, w: nat)
    requires AllFit(gs, w) && w > 0
    ensures BlocksFit(Blocks(gs), w) && Uniform(SumsOf(gs), w)
    ensures Uniform(TotalsIn(Render(Blocks(gs), w) + [Blank, GrandTotal(total)]), w)
    ensures VecSum(TotalsIn(Render(Blocks(gs), w) + [Blank, GrandTotal(total)]), w) == VecSum(SumsOf(gs), w)
  {
    TotalsOfGroups(gs, w);
    var r, tail := Render(Blocks(gs), w), [Blank, GrandTotal(total)];
    NoTotalsAfter(r, tail);
  }

  // ---------------------------------------------------------------------
  // Each ИТОГО, read against the week rows above it

  /**
   * The report read top to bottom as someone checking it would: a caption
   * starts a running sum at zero, each week row adds its values to it, and
   * each ИТОГО must equal it.  Some(the running sum at the end) when every
   * ИТОГО checks out, None at the first one that does not.
   */
  function Scan(rows: seq<Row>, acc: seq<int>, w: nat): Option<seq<int>>
    decreases |rows|
  {
    if rows == [] then Some(acc)
    else match rows[0]
      case MonthHeader(_) => Scan(rows[1..], Zeros(w), w)
      case WeekRow(_, v) => if |v| == |acc| then Scan(rows[1..], AddVec(acc, v), w) else None
      case Total(v) => if v == acc then Scan(rows[1..], acc, w) else None
      case _ => Scan(rows[1..], acc, w)
  }

  /** One row of the scan. */
  function ScanRow(row: Row, acc: seq<int>, w: nat): Option<seq<int>>
  {
    match row
    case MonthHeader(_) => Some(Zeros(w))
    case WeekRow(_, v) => if |v| == |acc| then Some(AddVec(acc, v)) else None
    case Total(v) => if v == acc then Some(acc) else None
    case _ => Some(acc)
  }

  lemma ScanFirst(rows: seq<Row>, acc: seq<int>, w: nat)
    requires rows != []
    ensures Scan(rows, acc, w)
      == if ScanRow(rows[0], acc, w).Some? then Scan(rows[1..], ScanRow(rows[0], acc, w).value, w) else None
  {
  }

  /** Scanning two stretches of rows is scanning the first and going on from where it ended. */
  lemma {:induction false} ScanConcat(a: seq<Row>, b: seq<Row>, acc: seq<int>, w: nat)
    ensures Scan(a + b, acc, w) == if Scan(a, acc, w).Some? then Scan(b, Scan(a, acc, w).value, w) else None
    decreases |a|
  {
    if a == [] {
      assert a + b == b;
    } else {
      assert (a + b)[0] == a[0] && (a + b)[1..] == a[1..] + b;
      ScanFirst(a + b, acc, w);
      ScanFirst(a, acc, w);
      var next := ScanRow(a[0], acc, w);
      if next.Some? {
        ScanConcat(a[1..], b, next.value, w);
      }
    }
  }

  lemma ScanOne(row: Row, acc: seq<int>, w: nat)
    ensures Scan([row], acc, w) == ScanRow(row, acc, w)
  {
    ScanFirst([row], acc, w);
    assert [row][1..] == [];
  }

  /** The week rows of a month, scanned from zero, end at the month's column sums. */
  lemma {:induction false} ScanWeeks(b: seq<Group>, w: nat)
    requires AllFit(b, w)
    ensures Uniform(SumsOf(b), w)
    ensures Scan(WeekRows(b), Zeros(w), w) == Some(VecSum(SumsOf(b), w))
  {
    FitUniform(b, w);
    if b == [] {
      VecSumEmpty(w);
    } else {
      var b0, g := b[..|b| - 1], b[|b| - 1];
      assert b == b0 + [g];
      assert AllFit(b0, w) && Fits(g, w);
      ScanWeeks(b0, w);
      WeekRowsConcat(b0, [g]);
      ScanConcat(WeekRows(b0), WeekRows([g]), Zeros(w), w);
      assert WeekRows([g]) == [WeekRow(g.key.week, g.sums)];
      ScanOne(WeekRow(g.key.week, g.sums), VecSum(SumsOf(b0), w), w);
      MonthSumAppend(b0, g, w);
    }
  }

  lemma ScanHead(head: seq<Row>, acc: seq<int>, w: nat)
    requires |head| >= 1 && head[|head| - 1].MonthHeader?
    requires forall i :: 0 <= i < |head| - 1 ==> head[i].Blank?
    requires |head| <= 2
    ensures Scan(head, acc, w) == Some(Zeros(w))
  {
    if |head| == 1 {
      ScanOne(head[0], acc, w);
    } else {
      assert head == [head[0]] + [head[1]];
      ScanConcat([head[0]], [head[1]], acc, w);
      ScanOne(head[0], acc, w);
      ScanOne(head[1], acc, w);
    }
  }

  lemma ScanClosing(b: seq<Group>, w: nat)
    requires AllFit(b, w)
    ensures Uniform(SumsOf(b), w) && GroupsWidth(b, w)
    ensures Scan(Closing(b, w), VecSum(SumsOf(b), w), w) == Some(VecSum(SumsOf(b), w))
  {
    FitUniform(b, w);
    if w > 0 {
      ScanOne(Total(VecSum(SumsOf(b), w)), VecSum(SumsOf(b), w), w);
    }
  }

  /** One month's rows, from any running sum, end at that month's column sums with its ИТОГО checked. */
  lemma ScanMonth(b: seq<Group>, first: bool, w: nat, acc: seq<int>)
    requires b != [] && AllFit(b, w)
    ensures Uniform(SumsOf(b), w) && GroupsWidth(b, w)
    ensures Scan(Opening(b, first, w) + Closing(b, w), acc, w) == Some(VecSum(SumsOf(b), w))
  {
    assert Fits(b[0], w);
    var head := (if !first && w > 0 then [Blank] else []) + [MonthHeader(Caption(b[0]))];
    var rest := WeekRows(b) + Closing(b, w);
    ScanClosing(b, w);
    assert Opening(b, first, w) + Closing(b, w) == head + rest;
    ScanConcat(head, rest, acc, w);
    ScanHead(head, acc, w);
    ScanConcat(WeekRows(b), Closing(b, w), Zeros(w), w);
    ScanWeeks(b, w);
  }

  lemma {:induction false} ScanRender(bs: seq<seq<Group>>, w: nat, acc: seq<int>)
    requires BlocksFit(bs, w)
    ensures Scan(Render(bs, w), acc, w).Some?
  {
    if bs != [] {
      var init, last := bs[..|bs| - 1], bs[|bs| - 1];
      RenderLast(bs, w);
      ScanRender(init, w, acc);
      var month := Opening(last, |bs| == 1, w) + Closing(last, w);
      ScanConcat(Render(init, w), month, acc, w);
      ScanMonth(last, |bs| == 1, w, Scan(Render(init, w), acc, w).value);
    }
  }

  lemma ScanReport(gs: seq<Group>, total: seq<int>, w: nat, acc: seq<int>)
    requires AllFit(gs, w)
    ensures BlocksFit(Blocks(gs), w)
    ensures Scan(Render(Blocks(gs), w) + [Blank, GrandTotal(total)], acc, w).Some?
  {
    BlocksOfFit(gs, w);
    var r := Render(Blocks(gs), w);
    ScanRender(Blocks(gs), w, acc);
    var x := Scan(r, acc, w).value;
    ScanConcat(r, [Blank, GrandTotal(total)], acc, w);
    ScanConcat([Blank], [GrandTotal(total)], x, w);
    assert [Blank] + [GrandTotal(total)] == [Blank, GrandTotal(total)];
    ScanOne(Blank, x, w);
    ScanOne(GrandTotal(total), x, w);
  }

  /**
   * Every ИТОГО of the report holds the column sums of the week rows
   * between it and the month caption above it.
   */
  lemma ReportMonthTotals(rs: seq<Record>, w: nat)
    requires Width(rs, w)
    ensures Scan(MonthlyReport(rs, w), Zeros(w), w).Some?
  {
    if rs != [] {
      ReportParts(rs, w);
      ScanReport(GroupByWeek(rs, w), Totals(rs, w), w, Zeros(w));
    }
  }

  // ---------------------------------------------------------------------
  // The month captions

  /** The captions of the months `bs`, in order. */
  function Heads(bs: seq<seq<Group>>, w: nat): (h: seq<string>)
    requires BlocksFit(bs, w)
    ensures |h| == |bs|
  {
    if bs == [] then []
    else
      var last := bs[|bs| - 1];
      assert Fits(last[0], w);
      Heads(bs[..|bs| - 1], w) + [Caption(last[0])]
  }

  lemma {:induction false} HeadAt(bs: seq<seq<Group>>, w: nat, i: nat)
    requires BlocksFit(bs, w) && i < |bs|
    ensures Fits(bs[i][0], w) && Heads(bs, w)[i] == Caption(bs[i][0])
  {
    assert bs[i] != [] && AllFit(bs[i], w);
    if i < |bs| - 1 {
      HeadAt(bs[..|bs| - 1], w, i);
    }
  }

  lemma CaptionsOfMonth(b: seq<Group>, first: bool, w: nat)
    requires b != [] && AllFit(b, w)
    ensures Fits(b[0], w) && GroupsWidth(b, w)
    ensures CaptionsIn(Opening(b, first, w) + Closing(b, w)) == [Caption(b[0])]
  {
    assert Fits(b[0], w);
    var head := (if !first && w > 0 then [Blank] else []) + [MonthHeader(Caption(b[0]))];
    NoCaptions(b, w);
    MonthRowsCaptions(head, WeekRows(b), Closing(b, w), Caption(b[0]));
    assert Opening(b, first, w) == head + WeekRows(b);
  }

  /** A month's caption row, then rows without captions: the one caption is the month's. */
  lemma MonthRowsCaptions(head: seq<Row>, weeks: seq<Row>, closing: seq<Row>, name: string)
    requires head == [MonthHeader(name)] || head == [Blank, MonthHeader(name)]
    requires CaptionsIn(weeks + closing) == []
    ensures CaptionsIn(head + weeks + closing) == [name]
  {
    assert head + weeks + closing == head + (weeks + closing);
    CaptionsInConcat(head, weeks + closing);
    OneCaption(head, name);
  }

  lemma OneCaption(head: seq<Row>, name: string)
    requires head == [MonthHeader(name)] || head == [Blank, MonthHeader(name)]
    ensures CaptionsIn(head) == [name]
  {
    var lead := head[..|head| - 1];
    assert head == lead + [MonthHeader(name)];
    CaptionsInConcat(lead, [MonthHeader(name)]);
    OnlyNone(lead, IsCaption);
    OnlyAll([MonthHeader(name)], IsCaption);
  }

  lemma NoCaptions(b: seq<Group>, w: nat)
    requires GroupsWidth(b, w)
    ensures CaptionsIn(WeekRows(b) + Closing(b, w)) == []
  {
    OnlyNone(WeekRows(b) + Closing(b, w), IsCaption);
  }

  lemma {:induction false} CaptionsOfRender(bs: seq<seq<Group>>, w: nat)
    requires BlocksFit(bs, w)
    ensures CaptionsIn(Render(bs, w)) == Heads(bs, w)
  {
    if bs == [] {
      OnlyNone([], IsCaption);
    } else {
      var init, last := bs[..|bs| - 1], bs[|bs| - 1];
      RenderLast(bs, w);
      CaptionsOfRender(init, w);
      CaptionsInConcat(Render(init, w), Opening(last, |bs| == 1, w) + Closing(last, w));
      CaptionsOfMonth(last, |bs| == 1, w);
    }
  }

  /** The months as one count: January of year 0 is 1, and each later month one more. */
  function MonthIndex(g: Group): int
  {
    12 * g.key.year + g.key.month
  }

  /** For groups of real months, the same month is the same month index. */
  lemma MonthIndexSame(a: Group, b: Group, w: nat)
    requires Fits(a, w) && Fits(b, w)
    ensures SameMonth(a, b) <==> MonthIndex(a) == MonthIndex(b)
    ensures KeyLess(a.key, b.key) ==> MonthIndex(a) <= MonthIndex(b)
  {
  }

  /** The months `bs` strictly ascend. */
  predicate Ascending(bs: seq<seq<Group>>)
  {
    forall i, j :: 0 <= i < j < |bs| ==> bs[i] != [] && bs[j] != [] && MonthIndex(bs[i][0]) < MonthIndex(bs[j][0])
  }

  /**
   * Sorted groups cut into months: the last month is that of the last
   * group, and the months strictly ascend.
   */
  lemma {:induction false} BlocksAscend(gs: seq<Group>, w: nat)
    requires Sorted(gs) && AllFit(gs, w)
    ensures BlocksFit(Blocks(gs), w)
    ensures var bs := Blocks(gs);
      (gs != [] ==> SameMonth(bs[|bs| - 1][0], gs[|gs| - 1])) && Ascending(bs)
  {
    BlocksOfFit(gs, w);
    if gs != [] {
      var gs0, g := gs[..|gs| - 1], gs[|gs| - 1];
      BlocksAscend(gs0, w);
      var bs0 := Blocks(gs0);
      if bs0 != [] && SameMonth(bs0[|bs0| - 1][0], g) {
        AscendExtend(bs0, g, w);
      } else {
        if gs0 != [] {
          assert KeyLess(gs0[|gs0| - 1].key, g.key);
          assert Fits(g, w);
          NextMonth(bs0[|bs0| - 1][0], gs0[|gs0| - 1], g, w);
        }
        AscendNew(bs0, g, w);
      }
    }
  }

  /** A group after the last one of month `first`, but not of that month, is of a later month. */
  lemma NextMonth(first: Group, last: Group, g: Group, w: nat)
    requires Fits(first, w) && Fits(last, w) && Fits(g, w)
    requires SameMonth(first, last) && KeyLess(last.key, g.key) && !SameMonth(first, g)
    ensures MonthIndex(first) < MonthIndex(g)
  {
    MonthIndexSame(first, last, w);
    MonthIndexSame(last, g, w);
    MonthIndexSame(first, g, w);
  }

  lemma AscendExtend(bs: seq<seq<Group>>, g: Group, w: nat)
    requires bs != [] && BlocksFit(bs, w) && Ascending(bs)
    ensures Ascending(bs[..|bs| - 1] + [bs[|bs| - 1] + [g]])
  {
    var bs' := bs[..|bs| - 1] + [bs[|bs| - 1] + [g]];
    assert forall i :: 0 <= i < |bs| ==> bs'[i] != [] && bs'[i][0] == bs[i][0];
  }

  lemma AscendNew(bs: seq<seq<Group>>, g: Group, w: nat)
    requires BlocksFit(bs, w) && Ascending(bs)
    requires bs != [] ==> MonthIndex(bs[|bs| - 1][0]) < MonthIndex(g)
    ensures Ascending(bs + [[g]])
  {
    var bs' := bs + [[g]];
    forall i, j | 0 <= i < j < |bs'|
      ensures bs'[i] != [] && bs'[j] != [] && MonthIndex(bs'[i][0]) < MonthIndex(bs'[j][0])
    {
      if j == |bs| && i < |bs| - 1 {
        assert MonthIndex(bs[i][0]) < MonthIndex(bs[|bs| - 1][0]);
      }
    }
  }

  /** No two entries of `s` are equal. */
  predicate Distinct(s: seq<string>)
  {
    forall i, j :: 0 <= i < j < |s| ==> s[i] != s[j]
  }

  lemma CaptionsOfReport(gs: seq<Group>, total: seq<int>, w: nat)
    requires Sorted(gs) && AllFit(gs, w)
    ensures BlocksFit(Blocks(gs), w)
    ensures Distinct(CaptionsIn(Render(Blocks(gs), w) + [Blank, GrandTotal(total)]))
    ensures forall k :: 0 <= k < |gs| ==>
      (Fits(gs[k], w) && Caption(gs[k]) in CaptionsIn(Render(Blocks(gs), w) + [Blank, GrandTotal(total)]))
  {
    BlocksAscend(gs, w);
    var bs := Blocks(gs);
    var r, tail := Render(bs, w), [Blank, GrandTotal(total)];
    CaptionsInConcat(r, tail);
    OnlyNone(tail, IsCaption);
    CaptionsOfRender(bs, w);
    var c := Heads(bs, w);
    forall i, j | 0 <= i < j < |c| ensures c[i] != c[j] {
      HeadAt(bs, w, i);
      HeadAt(bs, w, j);
      MonthNameInjective(bs[i][0].key.year, bs[i][0].key.month, bs[j][0].key.year, bs[j][0].key.month);
    }
    forall k | 0 <= k < |gs| ensures Fits(gs[k], w) && Caption(gs[k]) in c {
      CaptionOfGroup(gs, w, k);
    }
  }

  lemma CaptionOfGroup(gs: seq<Group>, w: nat, k: nat)
    requires AllFit(gs, w) && k < |gs|
    ensures Fits(gs[k], w) && BlocksFit(Blocks(gs), w) && Caption(gs[k]) in Heads(Blocks(gs), w)
  {
    BlocksOfFit(gs, w);
    BlocksAreRuns(gs);
    var bs := Blocks(gs);
    var i, j := FlattenFind(bs, k);
    assert SameMonth(bs[i][j], bs[i][0]);
    HeadAt(bs, w, i);
    assert Heads(bs, w)[i] == Caption(gs[k]);
  }

  /**
   * Every month of the records gets a caption, and no caption is printed
   * twice: the sort puts all weeks of a month next to each other.
   */
  lemma ReportCaptions(rs: seq<Record>, w: nat)
    requires Width(rs, w)
    ensures Distinct(CaptionsIn(MonthlyReport(rs, w)))
    ensures forall r :: r in rs ==> MonthName(r.date.year, r.date.month) in CaptionsIn(MonthlyReport(rs, w))
    ensures forall c :: c in CaptionsIn(MonthlyReport(rs, w)) ==>
      exists r :: r in rs && MonthName(r.date.year, r.date.month) == c
  {
    if rs == [] {
      OnlyNone([], IsCaption);
    } else {
      ReportParts(rs, w);
      var gs := GroupByWeek(rs, w);
      CaptionsOfReport(gs, Totals(rs, w), w);
      forall r | r in rs ensures MonthName(r.date.year, r.date.month) in CaptionsIn(MonthlyReport(rs, w)) {
        RecordCaption(rs, w, r);
      }
      forall c | c in CaptionsIn(MonthlyReport(rs, w))
        ensures exists r :: r in rs && MonthName(r.date.year, r.date.month) == c
      {
        RecordOfCaption(rs, w, c);
      }
    }
  }

  /** Every caption of the report names the month of some record. */
  lemma RecordOfCaption(rs: seq<Record>, w: nat, c: string)
    requires Width(rs, w) && rs != [] && c in CaptionsIn(MonthlyReport(rs, w))
    ensures exists r :: r in rs && MonthName(r.date.year, r.date.month) == c
  {
    var gs := GroupByWeek(rs, w);
    var k := ReportCaptionGroup(rs, w, c);
    var g := gs[k];
    assert g in gs && g.key in KeySet(gs);
    var r :| r in rs && KeyOf(r) == g.key;
    assert MonthName(r.date.year, r.date.month) == c;
  }

  /** A caption of the report is the caption of one of its week groups. */
  lemma ReportCaptionGroup(rs: seq<Record>, w: nat, c: string) returns (k: nat)
    requires Width(rs, w) && rs != [] && c in CaptionsIn(MonthlyReport(rs, w))
    ensures k < |GroupByWeek(rs, w)| && Fits(GroupByWeek(rs, w)[k], w) && Caption(GroupByWeek(rs, w)[k]) == c
  {
    ReportHeads(rs, w);
    k := GroupOfCaption(GroupByWeek(rs, w), w, c);
  }

  /** The captions of a report are the heads of its month blocks: the closing rows add none. */
  lemma ReportHeads(rs: seq<Record>, w: nat)
    requires Width(rs, w) && rs != []
    ensures AllFit(GroupByWeek(rs, w), w) && BlocksFit(Blocks(GroupByWeek(rs, w)), w)
    ensures CaptionsIn(MonthlyReport(rs, w)) == Heads(Blocks(GroupByWeek(rs, w)), w)
  {
    ReportParts(rs, w);
    RenderedHeads(Blocks(GroupByWeek(rs, w)), Totals(rs, w), w);
  }

  /** The month blocks' captions, followed by the closing rows, which add none. */
  lemma RenderedHeads(bs: seq<seq<Group>>, total: seq<int>, w: nat)
    requires BlocksFit(bs, w)
    ensures CaptionsIn(Render(bs, w) + [Blank, GrandTotal(total)]) == Heads(bs, w)
  {
    var tail := [Blank, GrandTotal(total)];
    CaptionsInConcat(Render(bs, w), tail);
    OnlyNone(tail, IsCaption);
    CaptionsOfRender(bs, w);
    assert CaptionsIn(tail) == [];
  }

  /** A caption of the rendered months is the caption of one of the groups. */
  lemma GroupOfCaption(gs: seq<Group>, w: nat, c: string) returns (k: nat)
    requires AllFit(gs, w) && BlocksFit(Blocks(gs), w) && c in Heads(Blocks(gs), w)
    ensures k < |gs| && Fits(gs[k], w) && Caption(gs[k]) == c
  {
    BlocksAreRuns(gs);
    var bs := Blocks(gs);
    var i :| 0 <= i < |bs| && Heads(bs, w)[i] == c;
    HeadAt(bs, w, i);
    FlattenMember(bs, i, 0);
    k :| 0 <= k < |gs| && gs[k] == bs[i][0];
  }

  lemma RecordCaption(rs: seq<Record>, w: nat, r: Record)
    requires Width(rs, w) && r in rs
    ensures exists k :: 0 <= k < |GroupByWeek(rs, w)| && GroupByWeek(rs, w)[k].key == KeyOf(r)
  {
    var gs := GroupByWeek(rs, w);
    assert KeyOf(r) in RecordKeys(rs);
    assert KeyOf(r) in KeySet(gs);
    var g :| g in gs && g.key == KeyOf(r);
    var k :| 0 <= k < |gs| && gs[k] == g;
  }
}
