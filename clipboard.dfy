/** `copy_rows`: the selected rows of the table view as text on the
    clipboard, one line per row, cells separated by tabs. */
module Clipboard {
  import opened Wrappers
  import opened Text
  import opened Records

  predicate ValidIds(t: Table, ids: seq<nat>) {
    forall k :: 0 <= k < |ids| ==> ids[k] < |t|
  }

  /** The values the table view shows for row `id`: its number counted
      from 1, then the five cells in column order. */
  function RowValues(t: Table, id: nat): (vs: seq<string>)
    requires id < |t|
    ensures |vs| == 6
  {
    [NatToString(id + 1), t[id].company, t[id].position, t[id].url, t[id].dateApplied, t[id].status]
  }

  /** One row as copied: its values joined by tabs. */
  function RowText(t: Table, id: nat): string
    requires id < |t|
  {
    Join(RowValues(t, id), '\t')
  }

  /** The text the loop of `copy_rows` accumulates: each row's text
      followed by a newline, in selection order. */
  function Lines(t: Table, ids: seq<nat>): string
    requires ValidIds(t, ids)
  {
    if ids == [] then "" else Lines(t, ids[..|ids| - 1]) + RowText(t, ids[|ids| - 1]) + "\n"
  }

  /** The row texts of the selection, in selection order. */
  function Texts(t: Table, ids: seq<nat>): (ts: seq<string>)
    requires ValidIds(t, ids)
    ensures |ts| == |ids|
  {
    seq(|ids|, k requires 0 <= k < |ids| => RowText(t, ids[k]))
  }

  /** `copy_rows(row_ids)`: `None` when nothing is selected (nothing is
      copied) or when an id names no row of the view (the lookup raises
      before the clipboard is touched); otherwise the stripped text. */
  method CopyRows(t: Table, ids: seq<nat>) returns (copied: Option<string>)
    ensures copied.None? <==> ids == [] || !ValidIds(t, ids)
    ensures copied.Some? ==> copied.value == Strip(Lines(t, ids))
  {
    if ids == [] {
      return None;
    }
    var text := "";
    var k := 0;
    while k < |ids|
      invariant 0 <= k <= |ids|
      invariant ValidIds(t, ids[..k])
      invariant text == Lines(t, ids[..k])
    {
      var id := ids[k];
      if id >= |t| {
        return None;
      }
      assert ids[..k + 1][..k] == ids[..k];
      text := text + RowText(t, id) + "\n";
      k := k + 1;
    }
    assert ids[..k] == ids;
    return Some(Strip(text));
  }

  /** No cell holds a tab or a newline. */
  predicate Clean(r: Record) {
    && '\t' !in r.company && '\t' !in r.position && '\t' !in r.url && '\t' !in r.dateApplied && '\t' !in r.status
    && '\n' !in r.company && '\n' !in r.position && '\n' !in r.url && '\n' !in r.dateApplied && '\n' !in r.status
  }

  lemma {:induction false} LinesJoin(t: Table, ids: seq<nat>)
    requires ValidIds(t, ids) && |ids| >= 1
    ensures Lines(t, ids) == Join(Texts(t, ids), '\n') + "\n"
  {
    var n := |ids|;
    if n == 1 {
      assert Texts(t, ids) == [RowText(t, ids[0])];
      assert ids[..0] == [];
    } else {
      var front := ids[..n - 1];
      LinesJoin(t, front);
      JoinAppend(Texts(t, front), RowText(t, ids[n - 1]), '\n');
      assert Texts(t, front) + [RowText(t, ids[n - 1])] == Texts(t, ids);
    }
  }

  lemma DigitsHaveNoSeparators(n: nat)
    ensures '\t' !in NatToString(n) && '\n' !in NatToString(n)
    ensures !IsSpace(NatToString(n)[0])
  {
  }

  /** A clean row's text splits back into the values shown, and holds no
      newline. */
  lemma RowTextRoundTrip(t: Table, id: nat)
    requires id < |t| && Clean(t[id])
    ensures Split(RowText(t, id), '\t') == RowValues(t, id)
    ensures '\n' !in RowText(t, id)
  {
    DigitsHaveNoSeparators(id + 1);
    SplitJoin(RowValues(t, id), '\t');
    JoinNoSeparator(RowValues(t, id), '\t', '\n');
  }

  /** Pasting what `copy_rows` copied gives back the selected rows: split
      on newlines it yields one line per selected row, in order, and each
      line split on tabs yields that row's shown values. This holds when no
      cell holds a tab or newline and the last selected row's status does
      not end in whitespace, which `strip` would otherwise remove with it. */
  lemma CopyRoundTrip(t: Table, ids: seq<nat>)
    requires ValidIds(t, ids) && |ids| >= 1
    requires forall k :: 0 <= k < |ids| ==> Clean(t[ids[k]])
    requires var last := t[ids[|ids| - 1]].status; last != [] && !IsSpace(last[|last| - 1])
    ensures Split(Strip(Lines(t, ids)), '\n') == Texts(t, ids)
    ensures forall k :: 0 <= k < |ids| ==> Split(Texts(t, ids)[k], '\t') == RowValues(t, ids[k])
  {
    var ts := Texts(t, ids);
    forall k | 0 <= k < |ids|
      ensures Split(ts[k], '\t') == RowValues(t, ids[k]) && '\n' !in ts[k]
    {
      RowTextRoundTrip(t, ids[k]);
    }
    StrippedLines(t, ids);
    SplitJoin(ts, '\n');
  }

  /** Stripping the accumulated text removes exactly the final newline. */
  lemma StrippedLines(t: Table, ids: seq<nat>)
    requires ValidIds(t, ids) && |ids| >= 1
    requires var last := t[ids[|ids| - 1]].status; last != [] && !IsSpace(last[|last| - 1])
    ensures Strip(Lines(t, ids)) == Join(Texts(t, ids), '\n')
  {
    var ts := Texts(t, ids);
    var n := |ids|;
    var joined := Join(ts, '\n');
    DigitsHaveNoSeparators(ids[0] + 1);
    JoinFirst(RowValues(t, ids[0]), '\t');
    JoinFirst(ts, '\n');
    assert !IsSpace(joined[0]);
    JoinLast(RowValues(t, ids[n - 1]), '\t');
    JoinLast(ts, '\n');
    assert !IsSpace(joined[|joined| - 1]);
    LinesJoin(t, ids);
    StripTrailingNewline(joined);
  }
}
