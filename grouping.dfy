/**
 * The records the extractors hand to create_monthly_report, and the
 * group-by-(year, month, week) with ascending sort that it asks pandas for
 * (Diary_Library.py, create_monthly_report).
 */
module Grouping {
  import opened Calendar
  import opened Vectors

  /** One extracted row: its date, its ISO week number ("№ недели") and its metric values in column order. */
  datatype Record = Record(date: CivilDate, week: int, metrics: seq<int>)

  /** The grouping key (year, month_num, week_num); month_year is a function of the first two. */
  datatype Key = Key(year: int, month: int, week: int)

  function KeyOf(r: Record): Key
  {
    Key(r.date.year, r.date.month, r.week)
  }

  /** The order of sort_values(['year', 'month_num', 'week_num']): lexicographic. */
  predicate KeyLess(a: Key, b: Key)
  {
    a.year < b.year
    || (a.year == b.year && (a.month < b.month || (a.month == b.month && a.week < b.week)))
  }

  /** One row of the grouped frame: a key and the column sums of its records. */
  datatype Group = Group(key: Key, sums: seq<int>)

  /** Every record carries one value per metric column. */
  predicate Width(rs: seq<Record>, w: nat)
  {
    forall r :: r in rs ==> |r.metrics| == w
  }

  function Metrics(rs: seq<Record>): (m: seq<seq<int>>)
    ensures |m| == |rs| && forall i :: 0 <= i < |rs| ==> m[i] == rs[i].metrics
  {
    seq(|rs|, i requires 0 <= i < |rs| => rs[i].metrics)
  }

  /** The column sums of a list of records (pandas' df[col].sum() for each metric column). */
  function Totals(rs: seq<Record>, w: nat): (t: seq<int>)
    requires Width(rs, w)
    ensures |t| == w
  {
    VecSum(Metrics(rs), w)
  }

  /** The records with key `k`, in their original order. */
  function Filter(rs: seq<Record>, k: Key): (f: seq<Record>)
    ensures forall r :: r in f ==> r in rs && KeyOf(r) == k
  {
    if rs == [] then []
    else
      var last := rs[|rs| - 1];
      Filter(rs[..|rs| - 1], k) + (if KeyOf(last) == k then [last] else [])
  }

  function RecordKeys(rs: seq<Record>): set<Key>
  {
    set r | r in rs :: KeyOf(r)
  }

  function KeySet(gs: seq<Group>): set<Key>
  {
    set g | g in gs :: g.key
  }

  function SumsOf(gs: seq<Group>): (s: seq<seq<int>>)
    ensures |s| == |gs| && forall i :: 0 <= i < |gs| ==> s[i] == gs[i].sums
  {
    seq(|gs|, i requires 0 <= i < |gs| => gs[i].sums)
  }

  /** Strictly ascending keys: sorted, and no key occurs twice. */
  predicate Sorted(gs: seq<Group>)
  {
    forall i, j :: 0 <= i < j < |gs| ==> KeyLess(gs[i].key, gs[j].key)
  }

  /** `g` holds the column sums of exactly the records of `rs` that have its key. */
  predicate GroupOk(g: Group, rs: seq<Record>, w: nat)
    requires Width(rs, w)
  {
    g.sums == Totals(Filter(rs, g.key), w)
  }

  /** Every group holds one sum per metric column. */
  predicate GroupsWidth(gs: seq<Group>, w: nat)
  {
    forall i :: 0 <= i < |gs| ==> |gs[i].sums| == w
  }

  predicate GroupsOk(gs: seq<Group>, rs: seq<Record>, w: nat)
    requires Width(rs, w)
  {
    forall g :: g in gs ==> GroupOk(g, rs, w)
  }

  /** Adds the metrics `m` of one record with key `k` to a sorted list of groups. */
  function Insert(gs: seq<Group>, k: Key, m: seq<int>): seq<Group>
    requires GroupsWidth(gs, |m|)
  {
    if gs == [] then [Group(k, m)]
    else if gs[0].key == k then [Group(k, AddVec(gs[0].sums, m))] + gs[1..]
    else if KeyLess(k, gs[0].key) then [Group(k, m)] + gs
    else [gs[0]] + Insert(gs[1..], k, m)
  }

  /**
   * groupby(['year', 'month_num', 'month_year', 'week_num']).sum() followed by
   * sort_values: one group per distinct key, in ascending key order, each
   * holding the column sums of the records with that key; together the
   * groups add up to the column sums of all records.
   */
  function GroupByWeek(rs: seq<Record>, w: nat): (gs: seq<Group>)
    requires Width(rs, w)
    ensures Sorted(gs) && KeySet(gs) == RecordKeys(rs)
    ensures GroupsWidth(gs, w) && GroupsOk(gs, rs, w)
    ensures VecSum(SumsOf(gs), w) == Totals(rs, w)
  {
    if rs == [] then
      VecSumEmpty(w);
      assert Metrics(rs) == [];
      []
    else
      var init, r := rs[..|rs| - 1], rs[|rs| - 1];
      assert rs == init + [r];
      WidthInit(init, r, w);
      var gs0 := GroupByWeek(init, w);
      GroupStep(gs0, init, r, w);
      Insert(gs0, KeyOf(r), r.metrics)
  }

  // ---------------------------------------------------------------------
  // Lemmas about Filter and Totals

  lemma WidthInit(rs: seq<Record>, r: Record, w: nat)
    requires Width(rs + [r], w)
    ensures Width(rs, w) && |r.metrics| == w
  {
    assert forall x :: x in rs ==> x in rs + [r];
    assert r in rs + [r];
  }

  lemma FilterAppend(rs: seq<Record>, r: Record, k: Key)
    ensures Filter(rs + [r], k) == Filter(rs, k) + (if KeyOf(r) == k then [r] else [])
  {
    assert (rs + [r])[..|rs|] == rs;
  }

  /** No record has a key outside RecordKeys. */
  lemma {:induction false} FilterAbsent(rs: seq<Record>, k: Key)
    requires k !in RecordKeys(rs)
    ensures Filter(rs, k) == []
  {
    if rs != [] {
      var init, last := rs[..|rs| - 1], rs[|rs| - 1];
      assert forall x :: x in init ==> x in rs;
      assert RecordKeys(init) <= RecordKeys(rs);
      FilterAbsent(init, k);
      assert last in rs && KeyOf(last) in RecordKeys(rs);
    }
  }

  /** The column sums of a list of records grow by exactly the metrics of an appended record. */
  lemma TotalsAppend(rs: seq<Record>, r: Record, w: nat)
    requires Width(rs + [r], w)
    ensures Width(rs, w)
    ensures Totals(rs + [r], w) == AddVec(Totals(rs, w), r.metrics)
  {
    WidthInit(rs, r, w);
    assert Metrics(rs + [r]) == Metrics(rs) + [r.metrics];
    VecSumAppend(Metrics(rs), r.metrics, w);
  }

  lemma TotalsSingle(r: Record, w: nat)
    requires |r.metrics| == w
    ensures Width([r], w) && Totals([r], w) == r.metrics
  {
    assert Metrics([r]) == [r.metrics];
    VecSumSingle(r.metrics);
  }

  /** Appending one record with a different key leaves a group's sums correct. */
  lemma OtherKeyStable(g: Group, rs: seq<Record>, r: Record, w: nat)
    requires Width(rs + [r], w) && g.key != KeyOf(r)
    ensures Width(rs, w)
    ensures GroupOk(g, rs, w) ==> GroupOk(g, rs + [r], w)
  {
    WidthInit(rs, r, w);
    FilterAppend(rs, r, g.key);
    assert Filter(rs + [r], g.key) == Filter(rs, g.key) + [] == Filter(rs, g.key);
  }

  /** The group of the appended record's key holds its earlier sums plus the new metrics. */
  lemma SameKeyGrows(rs: seq<Record>, r: Record, w: nat)
    requires Width(rs + [r], w)
    ensures Width(rs, w)
    ensures Totals(Filter(rs + [r], KeyOf(r)), w) == AddVec(Totals(Filter(rs, KeyOf(r)), w), r.metrics)
  {
    WidthInit(rs, r, w);
    FilterAppend(rs, r, KeyOf(r));
    assert Width(Filter(rs, KeyOf(r)) + [r], w);
    TotalsAppend(Filter(rs, KeyOf(r)), r, w);
  }

  /** A record whose key is new forms a group of its own. */
  lemma NewKeyAlone(rs: seq<Record>, r: Record, w: nat)
    requires Width(rs + [r], w) && Filter(rs, KeyOf(r)) == []
    ensures Width(rs, w)
    ensures GroupOk(Group(KeyOf(r), r.metrics), rs + [r], w)
  {
    WidthInit(rs, r, w);
    FilterAppend(rs, r, KeyOf(r));
    assert Filter(rs + [r], KeyOf(r)) == [r];
    TotalsSingle(r, w);
  }

  // ---------------------------------------------------------------------
  // Lemmas about Insert

  lemma {:induction false} InsertKeys(gs: seq<Group>, k: Key, m: seq<int>)
    requires GroupsWidth(gs, |m|)
    ensures KeySet(Insert(gs, k, m)) == KeySet(gs) + {k}
  {
    if gs == [] {
    } else if gs[0].key == k {
      assert gs == [gs[0]] + gs[1..];
    } else if KeyLess(k, gs[0].key) {
    } else {
      InsertKeys(gs[1..], k, m);
      assert gs == [gs[0]] + gs[1..];
      assert KeySet(gs) == {gs[0].key} + KeySet(gs[1..]);
      var r := [gs[0]] + Insert(gs[1..], k, m);
      assert KeySet(r) == {gs[0].key} + KeySet(Insert(gs[1..], k, m));
    }
  }

  lemma {:induction false} InsertWidth(gs: seq<Group>, k: Key, m: seq<int>)
    requires GroupsWidth(gs, |m|)
    ensures GroupsWidth(Insert(gs, k, m), |m|)
  {
    if gs != [] && gs[0].key != k && !KeyLess(k, gs[0].key) {
      InsertWidth(gs[1..], k, m);
    }
  }

  /** In a sorted list, a key below the first key is below every key. */
  lemma BelowFirst(gs: seq<Group>, k: Key)
    requires Sorted(gs) && gs != [] && KeyLess(k, gs[0].key)
    ensures k !in KeySet(gs)
  {
    forall g | g in gs ensures g.key != k {
      var t :| 0 <= t < |gs| && gs[t] == g;
      assert t > 0 ==> KeyLess(gs[0].key, gs[t].key);
    }
  }

  lemma {:induction false} InsertSorted(gs: seq<Group>, k: Key, m: seq<int>)
    requires GroupsWidth(gs, |m|) && Sorted(gs)
    ensures Sorted(Insert(gs, k, m))
  {
    if gs == [] || gs[0].key == k {
    } else if KeyLess(k, gs[0].key) {
      var r := [Group(k, m)] + gs;
      forall i, j | 0 <= i < j < |r| ensures KeyLess(r[i].key, r[j].key) {
        if i == 0 && j > 1 {
          assert KeyLess(gs[0].key, gs[j - 1].key);
        }
      }
    } else {
      var rest := Insert(gs[1..], k, m);
      InsertSorted(gs[1..], k, m);
      InsertKeys(gs[1..], k, m);
      forall j | 0 <= j < |rest| ensures KeyLess(gs[0].key, rest[j].key) {
        assert rest[j] in rest;
        assert rest[j].key in KeySet(rest);
        if rest[j].key != k {
          var g :| g in gs[1..] && g.key == rest[j].key;
          var t :| 0 <= t < |gs[1..]| && gs[1..][t] == g;
          assert KeyLess(gs[0].key, gs[t + 1].key);
        }
      }
    }
  }

  /** Inserting a record with a key below every group's key: the new group goes first. */
  lemma InsertFront(gs: seq<Group>, rs: seq<Record>, r: Record, w: nat)
    requires Width(rs + [r], w) && Width(rs, w) && GroupsOk(gs, rs, w)
    requires forall g :: g in gs ==> g.key != KeyOf(r)
    requires Filter(rs, KeyOf(r)) == []
    ensures GroupsOk([Group(KeyOf(r), r.metrics)] + gs, rs + [r], w)
  {
    NewKeyAlone(rs, r, w);
    forall g | g in gs ensures GroupOk(g, rs + [r], w) {
      OtherKeyStable(g, rs, r, w);
    }
  }

  /** Inserting a record whose key is the first group's key: that group absorbs it. */
  lemma InsertMerge(gs: seq<Group>, rs: seq<Record>, r: Record, w: nat)
    requires Width(rs + [r], w) && Width(rs, w) && GroupsOk(gs, rs, w) && GroupsWidth(gs, w)
    requires Sorted(gs) && gs != [] && gs[0].key == KeyOf(r)
    ensures |r.metrics| == w
    ensures GroupsOk([Group(KeyOf(r), AddVec(gs[0].sums, r.metrics))] + gs[1..], rs + [r], w)
  {
    WidthInit(rs, r, w);
    assert gs[0] in gs;
    SameKeyGrows(rs, r, w);
    forall g | g in gs[1..] ensures GroupOk(g, rs + [r], w) {
      var t :| 0 <= t < |gs[1..]| && gs[1..][t] == g;
      assert KeyLess(gs[0].key, gs[t + 1].key);
      OtherKeyStable(g, rs, r, w);
    }
  }

  lemma {:induction false} InsertGroups(gs: seq<Group>, rs: seq<Record>, r: Record, w: nat)
    requires Width(rs + [r], w) && Width(rs, w) && |r.metrics| == w
    requires Sorted(gs) && GroupsWidth(gs, w) && GroupsOk(gs, rs, w)
    requires KeyOf(r) !in KeySet(gs) ==> Filter(rs, KeyOf(r)) == []
    ensures GroupsOk(Insert(gs, KeyOf(r), r.metrics), rs + [r], w)
  {
    var k := KeyOf(r);
    if gs == [] {
      InsertFront(gs, rs, r, w);
    } else if gs[0].key == k {
      InsertMerge(gs, rs, r, w);
    } else if KeyLess(k, gs[0].key) {
      BelowFirst(gs, k);
      InsertFront(gs, rs, r, w);
    } else {
      var rest := gs[1..];
      assert gs == [gs[0]] + rest;
      assert KeySet(gs) == {gs[0].key} + KeySet(rest);
      InsertGroups(rest, rs, r, w);
      OtherKeyStable(gs[0], rs, r, w);
      assert gs[0] in gs;
    }
  }

  /** Inserting a record's metrics adds them to the column sums of all groups together. */
  lemma {:induction false} InsertTotal(gs: seq<Group>, k: Key, m: seq<int>, w: nat)
    requires GroupsWidth(gs, w) && |m| == w
    ensures GroupsWidth(Insert(gs, k, m), w)
    ensures VecSum(SumsOf(Insert(gs, k, m)), w) == AddVec(VecSum(SumsOf(gs), w), m)
  {
    InsertWidth(gs, k, m);
    if gs == [] {
      VecSumSingle(m);
      VecSumEmpty(w);
      AddVecZeros(m);
      assert SumsOf(Insert(gs, k, m)) == [m];
    } else if gs[0].key == k {
      MergeTotal(gs, m, w);
    } else if KeyLess(k, gs[0].key) {
      var r := Insert(gs, k, m);
      assert SumsOf(r) == [m] + SumsOf(gs);
      ConsSum(m, SumsOf(gs), w);
      AddVecCommutes(m, VecSum(SumsOf(gs), w));
    } else {
      InsertTotal(gs[1..], k, m, w);
      PassTotal(gs, k, m, w);
    }
  }

  lemma MergeTotal(gs: seq<Group>, m: seq<int>, w: nat)
    requires GroupsWidth(gs, w) && |m| == w && gs != []
    ensures GroupsWidth(Insert(gs, gs[0].key, m), w)
    ensures VecSum(SumsOf(Insert(gs, gs[0].key, m)), w) == AddVec(VecSum(SumsOf(gs), w), m)
  {
    InsertWidth(gs, gs[0].key, m);
    var r := Insert(gs, gs[0].key, m);
    var s0, rest := gs[0].sums, SumsOf(gs[1..]);
    assert SumsOf(gs) == [s0] + rest;
    assert SumsOf(r) == [AddVec(s0, m)] + rest;
    ConsSum(s0, rest, w);
    ConsSum(AddVec(s0, m), rest, w);
    var t := VecSum(rest, w);
    assert AddVec(AddVec(s0, m), t) == AddVec(AddVec(s0, t), m);
  }

  lemma PassTotal(gs: seq<Group>, k: Key, m: seq<int>, w: nat)
    requires GroupsWidth(gs, w) && |m| == w && gs != [] && gs[0].key != k && !KeyLess(k, gs[0].key)
    requires GroupsWidth(Insert(gs[1..], k, m), w)
    requires VecSum(SumsOf(Insert(gs[1..], k, m)), w) == AddVec(VecSum(SumsOf(gs[1..]), w), m)
    ensures GroupsWidth(Insert(gs, k, m), w)
    ensures VecSum(SumsOf(Insert(gs, k, m)), w) == AddVec(VecSum(SumsOf(gs), w), m)
  {
    InsertWidth(gs, k, m);
    var s0, rest := gs[0].sums, SumsOf(gs[1..]);
    var tail := Insert(gs[1..], k, m);
    var rest' := SumsOf(tail);
    assert Insert(gs, k, m) == [gs[0]] + tail;
    assert SumsOf(gs) == [s0] + rest;
    assert SumsOf([gs[0]] + tail) == [s0] + rest';
    ConsSum(s0, rest, w);
    ConsSum(s0, rest', w);
    AddVecAssociates(s0, VecSum(rest, w), m);
  }

  lemma ConsSum(v: seq<int>, vs: seq<seq<int>>, w: nat)
    requires |v| == w && Uniform(vs, w)
    ensures Uniform([v] + vs, w) && VecSum([v] + vs, w) == AddVec(v, VecSum(vs, w))
  {
    VecSumConcat([v], vs, w);
    VecSumSingle(v);
  }

  /** One step of the grouping: inserting the last record keeps every property of the groups. */
  lemma GroupStep(gs: seq<Group>, rs: seq<Record>, r: Record, w: nat)
    requires Width(rs + [r], w) && Width(rs, w) && |r.metrics| == w
    requires Sorted(gs) && KeySet(gs) == RecordKeys(rs)
    requires GroupsWidth(gs, w) && GroupsOk(gs, rs, w)
    requires VecSum(SumsOf(gs), w) == Totals(rs, w)
    ensures var gs' := Insert(gs, KeyOf(r), r.metrics);
      Sorted(gs') && KeySet(gs') == RecordKeys(rs + [r])
      && GroupsWidth(gs', w) && GroupsOk(gs', rs + [r], w)
      && VecSum(SumsOf(gs'), w) == Totals(rs + [r], w)
  {
    var k := KeyOf(r);
    InsertSorted(gs, k, r.metrics);
    InsertKeys(gs, k, r.metrics);
    assert RecordKeys(rs + [r]) == RecordKeys(rs) + {k};
    if k !in KeySet(gs) {
      FilterAbsent(rs, k);
    }
    InsertGroups(gs, rs, r, w);
    InsertTotal(gs, k, r.metrics, w);
    TotalsAppend(rs, r, w);
  }

  lemma Week53Groups(m1: seq<int>, m2: seq<int>)
    requires |m1| == |m2|
    ensures var rs := [Record(Date(2021, 1, 1), 53, m1), Record(Date(2021, 1, 4), 1, m2)];
      GroupByWeek(rs, |m1|) == [Group(Key(2021, 1, 1), m2), Group(Key(2021, 1, 53), m1)]
  {
    var rs := [Record(Date(2021, 1, 1), 53, m1), Record(Date(2021, 1, 4), 1, m2)];
    assert rs[..1] == [rs[0]] && rs[..1][..0] == [];
    assert GroupByWeek(rs[..1], |m1|) == [Group(Key(2021, 1, 53), m1)];
  }

  /**
   * ISO week 53 that falls in early January is a later key than that
   * January's weeks 1 to 5, so its group comes after theirs.
   */
  lemma EarlyJanuaryWeek53Last(m1: seq<int>, m2: seq<int>)
    requires |m1| == |m2|
    ensures var d1, d4 := Date(2021, 1, 1), Date(2021, 1, 4);
      var gs := GroupByWeek([Record(d1, IsoWeek(d1), m1), Record(d4, IsoWeek(d4), m2)], |m1|);
      |gs| == 2 && gs[0].key == Key(2021, 1, 1) && gs[1].key == Key(2021, 1, 53)
  {
    EarlyJanuaryWeek53();
    Week53Groups(m1, m2);
  }
}
