/** The application table `applications_df`: an ordered sequence of rows
    whose row id is their position, and the pure operations on it. */
module Records {
  import opened Wrappers
  import opened Text

  /** The five columns of the table, in file order. */
  datatype Column = Company | Position | PortalUrl | DateApplied | Status

  /** The column header as the table and its text rendering spell it. */
  function Label(c: Column): string {
    match c
    case Company => "Company"
    case Position => "Position"
    case PortalUrl => "Application Portal URL"
    case DateApplied => "Date Applied"
    case Status => "Status"
  }

  datatype Record = Record(company: string, position: string, url: string, dateApplied: string, status: string)

  type Table = seq<Record>

  function Cell(r: Record, c: Column): string {
    match c
    case Company => r.company
    case Position => r.position
    case PortalUrl => r.url
    case DateApplied => r.dateApplied
    case Status => r.status
  }

  /** `r` with one cell replaced. */
  function WithCell(r: Record, c: Column, v: string): (r': Record)
    ensures Cell(r', c) == v
    ensures forall d :: d != c ==> Cell(r', d) == Cell(r, d)
  {
    match c
    case Company => r.(company := v)
    case Position => r.(position := v)
    case PortalUrl => r.(url := v)
    case DateApplied => r.(dateApplied := v)
    case Status => r.(status := v)
  }

  /** A row whose cells were never written (NaN in the source, "" here). */
  const Blank := Record("", "", "", "", "")

  // ---------------------------------------------------------------------
  // Status values

  /** The four choices of the status drop-down. */
  datatype StatusChoice = Submitted | Rejected | Interview | Offer

  function StatusName(s: StatusChoice): string {
    match s
    case Submitted => "Submitted"
    case Rejected => "Rejected"
    case Interview => "Interview"
    case Offer => "Offer"
  }

  const StatusOptions: seq<string> := ["Submitted", "Rejected", "Interview", "Offer"]

  predicate StatusesValid(t: Table) {
    forall i :: 0 <= i < |t| ==> t[i].status in StatusOptions
  }

  /** Company and Position are non-empty in every row. */
  predicate Named(t: Table) {
    forall i :: 0 <= i < |t| ==> t[i].company != [] && t[i].position != []
  }

  // ---------------------------------------------------------------------
  // Add (save_application)

  datatype AddError = MissingCompanyOrPosition

  /** The row `save_application` builds, or the validation error. */
  function AddApplication(t: Table, company: string, position: string, url: string, today: string)
    : (r: Result<Table, AddError>)
    ensures r.Failure? <==> AllSpace(company) || AllSpace(position)
    ensures r.Success? ==> |r.value| == |t| + 1 && r.value[..|t|] == t
    ensures r.Success? ==> r.value[|t|].status == "Submitted" && r.value[|t|].dateApplied == today
    ensures r.Success? ==>
      && r.value[|t|].company == Strip(company) && r.value[|t|].position == Strip(position)
      && r.value[|t|].url == Strip(url)
  {
    var c, p, u := Strip(company), Strip(position), Strip(url);
    if c == [] || p == [] then Failure(MissingCompanyOrPosition)
    else Success(t + [Record(c, p, u, today, StatusName(Submitted))])
  }

  /** A valid Add appends exactly the stripped fields, dated today, with
      status Submitted. */
  lemma AddAppends(t: Table, company: string, position: string, url: string, today: string)
    requires !AllSpace(company) && !AllSpace(position)
    ensures AddApplication(t, company, position, url, today)
         == Success(t + [Record(Strip(company), Strip(position), Strip(url), today, "Submitted")])
  {
    var r := AddApplication(t, company, position, url, today).value;
    assert r == r[..|t|] + [r[|t|]];
  }

  /** Add keeps the named-row and valid-status invariants. */
  lemma AddKeepsInvariants(t: Table, company: string, position: string, url: string, today: string)
    requires Named(t) && StatusesValid(t)
    requires AddApplication(t, company, position, url, today).Success?
    ensures Named(AddApplication(t, company, position, url, today).value)
    ensures StatusesValid(AddApplication(t, company, position, url, today).value)
  {
    var r := AddApplication(t, company, position, url, today).value;
    assert !AllSpace(company) && !AllSpace(position);
    assert Strip(company) != [] && Strip(position) != [];
    forall i | 0 <= i < |r|
      ensures r[i].company != [] && r[i].position != [] && r[i].status in StatusOptions
    {
      if i < |t| {
        assert r[i] == r[..|t|][i];
      } else {
        assert r[i].status == StatusOptions[0];
      }
    }
  }

  // ---------------------------------------------------------------------
  // Cell writes (save_edit, save_direct_edit, save_status)

  /** `applications_df.at[id, column] = value`. A missing id enlarges the
      table with a new last row whose other cells are blank. */
  function SetCell(t: Table, id: nat, c: Column, v: string): (r: Table)
    ensures id < |t| ==> |r| == |t| && r[id] == WithCell(t[id], c, v)
    ensures id < |t| ==> forall i :: 0 <= i < |t| && i != id ==> r[i] == t[i]
    ensures id >= |t| ==> |r| == |t| + 1 && r[..|t|] == t && Cell(r[|t|], c) == v
    ensures id >= |t| ==> forall d :: d != c ==> Cell(r[|t|], d) == ""
  {
    if id < |t| then t[id := WithCell(t[id], c, v)] else t + [WithCell(Blank, c, v)]
  }

  /** Writing back the value a cell had undoes a write. */
  lemma SetCellUndo(t: Table, id: nat, c: Column, v: string)
    requires id < |t|
    ensures SetCell(SetCell(t, id, c, v), id, c, Cell(t[id], c)) == t
  {
    var r := SetCell(SetCell(t, id, c, v), id, c, Cell(t[id], c));
    assert r[id] == t[id] by {
      assert forall d :: Cell(r[id], d) == Cell(t[id], d);
    }
  }

  /** Picking a status from the drop-down keeps every status valid. */
  lemma SetStatusKeepsStatusesValid(t: Table, id: nat, s: StatusChoice)
    requires StatusesValid(t)
    ensures StatusesValid(SetCell(t, id, Status, StatusName(s)))
  {
  }

  /** A free-text edit does not keep the named-row invariant: the editors
      accept any string, the empty one included. */
  lemma EditMayBlankCompany()
    ensures var t := [Record("Acme", "Engineer", "", "2024-01-01", "Submitted")];
      Named(t) && !Named(SetCell(t, 0, Company, ""))
  {
  }

  // ---------------------------------------------------------------------
  // Delete (delete_rows): drop by index label, then renumber

  /** The positions below `n` that are not dropped, in increasing order. */
  function Survivors(n: nat, drop: set<int>): (ps: seq<nat>)
    ensures forall k :: 0 <= k < |ps| ==> ps[k] < n
  {
    if n == 0 then [] else Survivors(n - 1, drop) + (if n - 1 in drop then [] else [n - 1])
  }

  /** The survivors are exactly the positions below `n` not dropped, each
      once, in increasing order. */
  lemma {:induction false} SurvivorsSpec(n: nat, drop: set<int>)
    ensures var ps := Survivors(n, drop);
      && (forall k, l :: 0 <= k < l < |ps| ==> ps[k] < ps[l])
      && (forall i :: i in ps <==> 0 <= i < n && i !in drop)
  {
    if n > 0 {
      SurvivorsSpec(n - 1, drop);
    }
  }

  /** The table after the rows whose ids are in `drop` are removed and the
      rest renumbered 0..n-1. */
  function Delete(t: Table, drop: set<int>): Table {
    var ps := Survivors(|t|, drop);
    seq(|ps|, k requires 0 <= k < |ps| => t[ps[k]])
  }

  /** Only membership of ids below `n` matters: absent ids are skipped. */
  lemma {:induction false} SurvivorsIgnoreAbsent(n: nat, a: set<int>, b: set<int>)
    requires forall i :: 0 <= i < n ==> (i in a <==> i in b)
    ensures Survivors(n, a) == Survivors(n, b)
  {
    if n > 0 {
      SurvivorsIgnoreAbsent(n - 1, a, b);
    }
  }

  lemma DeleteIgnoresAbsent(t: Table, a: set<int>, b: set<int>)
    requires forall i :: 0 <= i < |t| ==> (i in a <==> i in b)
    ensures Delete(t, a) == Delete(t, b)
  {
    SurvivorsIgnoreAbsent(|t|, a, b);
  }

  lemma {:induction false} SurvivorsAll(n: nat)
    ensures |Survivors(n, {})| == n
    ensures forall j :: 0 <= j < n ==> Survivors(n, {})[j] == j
  {
    if n > 0 {
      SurvivorsAll(n - 1);
    }
  }

  /** The selected ids that name a row of an `n`-row table. */
  function PresentIds(n: nat, drop: set<int>): set<int> {
    set i | 0 <= i < n && i in drop
  }

  lemma {:induction false} SurvivorsCount(n: nat, drop: set<int>)
    ensures |Survivors(n, drop)| == n - |PresentIds(n, drop)|
  {
    if n > 0 {
      SurvivorsCount(n - 1, drop);
      if n - 1 in drop {
        assert PresentIds(n, drop) == PresentIds(n - 1, drop) + {n - 1};
      } else {
        assert PresentIds(n, drop) == PresentIds(n - 1, drop);
      }
    }
  }

  /** Deleting removes one row per distinct selected id that names a row. */
  lemma DeleteCount(t: Table, drop: set<int>)
    ensures |Delete(t, drop)| == |t| - |PresentIds(|t|, drop)|
  {
    SurvivorsCount(|t|, drop);
  }

  /** Deleting nothing, or only ids that are absent, leaves the table as it is. */
  lemma DeleteNothing(t: Table, drop: set<int>)
    requires forall i :: i in drop ==> !(0 <= i < |t|)
    ensures Delete(t, drop) == t
  {
    DeleteIgnoresAbsent(t, drop, {});
    SurvivorsAll(|t|);
    assert Delete(t, {}) == t;
  }

  lemma {:induction false} SurvivorsOne(n: nat, k: nat)
    requires k < n
    ensures |Survivors(n, {k})| == n - 1
    ensures forall j :: 0 <= j < n - 1 ==> Survivors(n, {k})[j] == if j < k then j else j + 1
  {
    if n - 1 == k {
      SurvivorsIgnoreAbsent(k, {k}, {});
      SurvivorsAll(k);
    } else {
      SurvivorsOne(n - 1, k);
    }
  }

  /** Deleting one present id removes exactly that row and shifts the later
      rows down by one. */
  lemma DeleteOne(t: Table, k: nat)
    requires k < |t|
    ensures Delete(t, {k}) == t[..k] + t[k + 1..]
  {
    SurvivorsOne(|t|, k);
    var r := Delete(t, {k});
    assert |r| == |t| - 1;
    forall j | 0 <= j < |r| ensures r[j] == (t[..k] + t[k + 1..])[j] {
    }
  }

  /** Deleting the row just added gives back the table before the add. */
  lemma AddThenDelete(t: Table, company: string, position: string, url: string, today: string)
    requires AddApplication(t, company, position, url, today).Success?
    ensures Delete(AddApplication(t, company, position, url, today).value, {|t|}) == t
  {
    var r := AddApplication(t, company, position, url, today).value;
    DeleteOne(r, |t|);
    assert r[..|t|] == t;
  }

  /** Rows A, B, C, D: deleting id 1 leaves A, C, D, renumbered 0, 1, 2. */
  lemma DeleteExample(a: Record, b: Record, c: Record, d: Record)
    ensures Delete([a, b, c, d], {1}) == [a, c, d]
  {
    DeleteOne([a, b, c, d], 1);
  }

  /** A row of the frame while rows are being dropped: its index label and
      its record. Labels stop being positions until the index is reset. */
  datatype Row = Row(index: int, rec: Record)

  function Labelled(t: Table): seq<Row> {
    seq(|t|, i requires 0 <= i < |t| => Row(i, t[i]))
  }

  /** `reset_index(drop=True)`: keep the records, forget the labels. */
  function Values(f: seq<Row>): Table {
    seq(|f|, i requires 0 <= i < |f| => f[i].rec)
  }

  predicate HasLabel(f: seq<Row>, x: int) {
    exists i :: 0 <= i < |f| && f[i].index == x
  }

  /** `DataFrame.drop` of every row whose label is in `drop`. */
  function DropLabels(f: seq<Row>, drop: set<int>): seq<Row> {
    if f == [] then []
    else DropLabels(f[..|f| - 1], drop) + (if f[|f| - 1].index in drop then [] else [f[|f| - 1]])
  }

  lemma {:induction false} DropNoLabels(f: seq<Row>)
    ensures DropLabels(f, {}) == f
  {
    if f != [] {
      DropNoLabels(f[..|f| - 1]);
    }
  }

  lemma {:induction false} DropLabelsTwice(f: seq<Row>, a: set<int>, b: set<int>)
    ensures DropLabels(DropLabels(f, a), b) == DropLabels(f, a + b)
  {
    if f != [] {
      var g := DropLabels(f[..|f| - 1], a);
      var last := if f[|f| - 1].index in a then [] else [f[|f| - 1]];
      DropLabelsTwice(f[..|f| - 1], a, b);
      DropLabelsAppend(g, last, b);
    }
  }

  lemma {:induction false} DropLabelsAppend(f: seq<Row>, g: seq<Row>, drop: set<int>)
    ensures DropLabels(f + g, drop) == DropLabels(f, drop) + DropLabels(g, drop)
    decreases |g|
  {
    if g == [] {
      assert f + g == f;
    } else {
      assert (f + g)[..|f + g| - 1] == f + g[..|g| - 1];
      DropLabelsAppend(f, g[..|g| - 1], drop);
    }
  }

  lemma {:induction false} DropAbsentLabel(f: seq<Row>, x: int)
    requires !HasLabel(f, x)
    ensures DropLabels(f, {x}) == f
  {
    if f != [] {
      assert !HasLabel(f[..|f| - 1], x) by {
        if HasLabel(f[..|f| - 1], x) {
          var i :| 0 <= i < |f| - 1 && f[..|f| - 1][i].index == x;
        }
      }
      DropAbsentLabel(f[..|f| - 1], x);
    }
  }

  /** The frame rows at the given positions, labels and records together. */
  function Pick(t: Table, ps: seq<nat>): seq<Row>
    requires forall k :: 0 <= k < |ps| ==> ps[k] < |t|
  {
    seq(|ps|, k requires 0 <= k < |ps| => Row(ps[k], t[ps[k]]))
  }

  lemma {:induction false} DropLabelsPrefix(t: Table, n: nat, drop: set<int>)
    requires n <= |t|
    ensures DropLabels(Labelled(t)[..n], drop) == Pick(t, Survivors(n, drop))
  {
    if n > 0 {
      DropLabelsPrefix(t, n - 1, drop);
      var f := Labelled(t)[..n];
      assert f[..n - 1] == Labelled(t)[..n - 1];
      assert f[n - 1] == Row(n - 1, t[n - 1]);
      var a := Survivors(n - 1, drop);
      var e: seq<nat> := if n - 1 in drop then [] else [n - 1];
      assert Survivors(n, drop) == a + e;
      assert Pick(t, a + e) == Pick(t, a) + Pick(t, e);
    }
  }

  /** Dropping labels from the labelled table and resetting the index is
      exactly `Delete`. */
  lemma DropThenReset(t: Table, drop: set<int>)
    ensures Values(DropLabels(Labelled(t), drop)) == Delete(t, drop)
  {
    DropLabelsPrefix(t, |t|, drop);
    assert Labelled(t)[..|t|] == Labelled(t);
    var ps := Survivors(|t|, drop);
    assert Values(Pick(t, ps)) == Delete(t, drop);
  }

  // ---------------------------------------------------------------------
  // Sorting the requested ids (delete_rows sorts them, largest first)

  predicate SortedDescending(s: seq<int>) {
    forall i, j :: 0 <= i < j < |s| ==> s[i] >= s[j]
  }

  function InsertDescending(x: int, s: seq<int>): (r: seq<int>)
    requires SortedDescending(s)
    ensures SortedDescending(r)
    ensures multiset(r) == multiset(s) + multiset{x}
    ensures |r| == |s| + 1 && (r[0] == x || (s != [] && r[0] == s[0]))
  {
    if s == [] || x >= s[0] then [x] + s
    else
      assert s == [s[0]] + s[1..];
      [s[0]] + InsertDescending(x, s[1..])
  }

  /** `sorted(ids, reverse=True)`. */
  function SortDescending(s: seq<int>): (r: seq<int>)
    ensures SortedDescending(r)
    ensures multiset(r) == multiset(s)
  {
    if s == [] then []
    else
      assert s == s[..|s| - 1] + [s[|s| - 1]];
      InsertDescending(s[|s| - 1], SortDescending(s[..|s| - 1]))
  }

  /** Sorting keeps exactly the ids that were selected. */
  lemma SortDescendingSameIds(s: seq<int>)
    ensures (set i | i in SortDescending(s)) == (set i | i in s)
  {
    forall i ensures i in SortDescending(s) <==> i in multiset(SortDescending(s)) {
    }
    forall i ensures i in s <==> i in multiset(s) {
    }
  }

  // ---------------------------------------------------------------------
  // Search (perform_search)

  /** Stand-in for the column alignment of `Series.to_string()`. */
  const Padding: string := "    "

  function Line(r: Record, c: Column): string {
    Label(c) + Padding + Lower(Cell(r, c))
  }

  /** `row.astype(str).str.lower().to_string()`: one line per column, the
      header as written followed by the lower-cased value. */
  function Render(r: Record): string {
    Line(r, Company) + "\n" + Line(r, Position) + "\n" + Line(r, PortalUrl) + "\n"
    + Line(r, DateApplied) + "\n" + Line(r, Status)
  }

  /** The filter predicate of the source: the term occurs in the rendering. */
  predicate MatchesAsWritten(r: Record, term: string) {
    Contains(Render(r), term)
  }

  /** `search_var.get().strip().lower()`. */
  function SearchTerm(raw: string): string {
    Lower(Strip(raw))
  }

  /** The ids of the rows that satisfy `keep`, in table order: the rows a
      boolean mask over `applications_df` selects, with their labels. */
  function Select(t: Table, keep: Record -> bool): (shown: seq<nat>)
    ensures forall k, l :: 0 <= k < l < |shown| ==> shown[k] < shown[l]
    ensures forall i :: i in shown <==> 0 <= i < |t| && keep(t[i])
  {
    var hidden := set i | 0 <= i < |t| && !keep(t[i]);
    SurvivorsSpec(|t|, hidden);
    Survivors(|t|, hidden)
  }

  /** The ids of the rows the view shows after a search, in table order. */
  function Search(t: Table, raw: string): (shown: seq<nat>)
    ensures forall k, l :: 0 <= k < l < |shown| ==> shown[k] < shown[l]
    ensures forall i :: i in shown <==>
      0 <= i < |t| && (SearchTerm(raw) == [] || MatchesAsWritten(t[i], SearchTerm(raw)))
  {
    var term := SearchTerm(raw);
    if term == [] then Select(t, _ => true)
    else Select(t, r => MatchesAsWritten(r, term))
  }

  /** The term occurs in some lower-cased value of the row. */
  predicate ValueMatches(r: Record, term: string) {
    exists c: Column :: Contains(Lower(Cell(r, c)), term)
  }

  /** A term found in one line of the rendering is found in the row. */
  lemma LineInRender(r: Record, c: Column, term: string)
    requires Contains(Line(r, c), term)
    ensures MatchesAsWritten(r, term)
  {
    var nl := "\n";
    var l1, l2, l3, l4, l5 := Line(r, Company), Line(r, Position), Line(r, PortalUrl), Line(r, DateApplied), Line(r, Status);
    var p1 := l1 + nl;
    var p2 := p1 + l2 + nl;
    var p3 := p2 + l3 + nl;
    var p4 := p3 + l4 + nl;
    if c == Company {
      ContainsLeft(l1, nl, term);
      ContainsLeft(p1, l2, term);
      ContainsLeft(p1 + l2, nl, term);
    } else if c == Position {
      ContainsRight(p1, l2, term);
      ContainsLeft(p1 + l2, nl, term);
    }
    if c == Company || c == Position {
      ContainsLeft(p2, l3, term);
      ContainsLeft(p2 + l3, nl, term);
    } else if c == PortalUrl {
      ContainsRight(p2, l3, term);
      ContainsLeft(p2 + l3, nl, term);
    }
    if c != DateApplied && c != Status {
      ContainsLeft(p3, l4, term);
      ContainsLeft(p3 + l4, nl, term);
    } else if c == DateApplied {
      ContainsRight(p3, l4, term);
      ContainsLeft(p3 + l4, nl, term);
    }
    if c != Status {
      ContainsLeft(p4, l5, term);
    } else {
      ContainsRight(p4, l5, term);
    }
    assert Render(r) == p4 + l5;
  }

  /** Every row with a value containing the term is found by the source's
      filter. */
  lemma ValueMatchIsFound(r: Record, term: string)
    requires ValueMatches(r, term)
    ensures MatchesAsWritten(r, term)
  {
    var c: Column :| Contains(Lower(Cell(r, c)), term);
    ContainsRight(Label(c) + Padding, Lower(Cell(r, c)), term);
    LineInRender(r, c, term);
  }

  /** The source's filter also matches the lower-case parts of the column
      headers: the term "ate" (from "Date Applied") selects a row none of
      whose values contains it. */
  lemma HeaderTextMatches()
    ensures MatchesAsWritten(Record("x", "x", "x", "x", "x"), "ate")
    ensures !ValueMatches(Record("x", "x", "x", "x", "x"), "ate")
  {
    var r := Record("x", "x", "x", "x", "x");
    assert Lower("x") == "x";
    var line := Line(r, DateApplied);
    assert line == "Date Applied    x";
    assert OccursAt("ate", line, 1);
    LineInRender(r, DateApplied, "ate");
    forall c: Column ensures !Contains(Lower(Cell(r, c)), "ate") {
      assert |Lower(Cell(r, c))| == 1;
    }
  }

  /** Search as evidently intended: rows with a value containing the term. */
  function SearchByValue(t: Table, raw: string): (shown: seq<nat>)
    ensures forall k, l :: 0 <= k < l < |shown| ==> shown[k] < shown[l]
    ensures forall i :: i in shown <==>
      0 <= i < |t| && (SearchTerm(raw) == [] || ValueMatches(t[i], SearchTerm(raw)))
  {
    var term := SearchTerm(raw);
    if term == [] then Select(t, _ => true)
    else Select(t, r => ValueMatches(r, term))
  }

  /** What the intended search shows, the source's search shows too. */
  lemma SearchByValueWithinSearch(t: Table, raw: string)
    ensures forall i :: i in SearchByValue(t, raw) ==> i in Search(t, raw)
  {
    forall i | i in SearchByValue(t, raw) ensures i in Search(t, raw) {
      if SearchTerm(raw) != [] {
        ValueMatchIsFound(t[i], SearchTerm(raw));
      }
    }
  }

  // ---------------------------------------------------------------------
  // Pull (sync_from_google_sheets)

  /** A row read from the remote sheet; a missing cell is `None` (NaN). */
  datatype RemoteRecord = RemoteRecord(
    company: Option<string>, position: Option<string>, url: Option<string>,
    dateApplied: Option<string>, status: Option<string>)

  /** `fillna('')` on one row. */
  function Fill(rr: RemoteRecord): Record {
    Record(rr.company.GetOr(""), rr.position.GetOr(""), rr.url.GetOr(""),
           rr.dateApplied.GetOr(""), rr.status.GetOr(""))
  }

  function FillAll(rs: seq<RemoteRecord>): (t: Table)
    ensures |t| == |rs|
    ensures forall i :: 0 <= i < |rs| ==> t[i] == Fill(rs[i])
  {
    if rs == [] then [] else [Fill(rs[0])] + FillAll(rs[1..])
  }

  /** The row as the sheet holds it after a push: every cell present. */
  function Lift(r: Record): RemoteRecord {
    RemoteRecord(Some(r.company), Some(r.position), Some(r.url), Some(r.dateApplied), Some(r.status))
  }

  /** True when a pull replaces the local table. `fetched` is `None` when
      reading the sheet raised. */
  predicate PullReplaces(enabled: bool, local: Table, fetched: Option<seq<RemoteRecord>>) {
    enabled && fetched.Some? && |fetched.value| > 0 && FillAll(fetched.value) != local
  }

  /** The local table after a pull. */
  function Pulled(enabled: bool, local: Table, fetched: Option<seq<RemoteRecord>>): (r: Table)
    ensures !enabled || fetched.None? || |fetched.value| == 0 ==> r == local
    ensures enabled && fetched.Some? && |fetched.value| > 0 ==> r == FillAll(fetched.value)
    ensures r != local <==> PullReplaces(enabled, local, fetched)
  {
    if !enabled then local
    else match fetched
      case None => local
      case Some(rs) =>
        var filled := FillAll(rs);
        if |filled| == 0 then local
        else if filled != local then filled
        else local
  }

  /** Pulling the same sheet a second time changes nothing. */
  lemma PullIdempotent(enabled: bool, local: Table, fetched: Option<seq<RemoteRecord>>)
    ensures !PullReplaces(enabled, Pulled(enabled, local, fetched), fetched)
    ensures Pulled(enabled, Pulled(enabled, local, fetched), fetched) == Pulled(enabled, local, fetched)
  {
  }

  /** A sheet holding exactly what was last pushed never replaces the
      local table. */
  lemma PushedSheetIsNoChange(local: Table)
    requires |local| > 0
    ensures var sheet := seq(|local|, i requires 0 <= i < |local| => Lift(local[i]));
      !PullReplaces(true, local, Some(sheet)) && Pulled(true, local, Some(sheet)) == local
  {
    var sheet := seq(|local|, i requires 0 <= i < |local| => Lift(local[i]));
    assert FillAll(sheet) == local;
  }
}
