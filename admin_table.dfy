// `status-report`: the quota status table, one aligned group per status.
module AdminTable {
  import opened Text

  /** One user's line in a quota status group. */
  datatype StatusRow = StatusRow(email: string, used: string, limit: string, percentage: string)

  datatype Widths = Widths(email: nat, used: nat, limit: nat, percentage: nat)

  /** `max([len(field(item)) for item in data])`. */
  function MaxLength(rows: seq<StatusRow>, field: StatusRow -> string): (m: nat)
    requires rows != []
    ensures forall k :: 0 <= k < |rows| ==> |field(rows[k])| <= m
    ensures exists k :: 0 <= k < |rows| && |field(rows[k])| == m
  {
    if |rows| == 1 then |field(rows[0])|
    else
      var rest := MaxLength(rows[1..], field);
      assert forall k :: 1 <= k < |rows| ==> rows[k] == rows[1..][k - 1];
      if |field(rows[0])| >= rest then |field(rows[0])| else rest
  }

  function EmailOf(r: StatusRow): string { r.email }
  function UsedOf(r: StatusRow): string { r.used }
  function LimitOf(r: StatusRow): string { r.limit }

  /** The column widths of a group: the widest email, used and limit, and `len("percentage")`. */
  function GroupWidths(rows: seq<StatusRow>): Widths
    requires rows != []
  {
    Widths(MaxLength(rows, EmailOf), MaxLength(rows, UsedOf), MaxLength(rows, LimitOf), 10)
  }

  /** `_print_row`. */
  function PrintRow(r: StatusRow, w: Widths): string
  {
    Indent + PadRight(r.email, w.email) + Bar + PadLeft(r.used, w.used) + Bar + PadLeft(r.limit, w.limit)
      + Bar + PadLeft(r.percentage, w.percentage) + Newline
  }

  const Indent := "  "
  const Bar := " | "
  const Newline := "\n"
  const Colon := ":\n"

  /** The blank line, the status name and the header line that open a group. */
  function GroupHeading(name: string, w: Widths): string
  {
    Newline + name + Colon + PrintRow(Header, w)
  }

  lemma PrintRowLength(r: StatusRow, w: Widths)
    ensures |PrintRow(r, w)| == 12 + |PadRight(r.email, w.email)| + |PadLeft(r.used, w.used)|
                                   + |PadLeft(r.limit, w.limit)| + |PadLeft(r.percentage, w.percentage)|
  {
    assert |Indent| == 2 && |Bar| == 3 && |Newline| == 1;
  }

  const Header := StatusRow("EMAIL", "USED", "LIMIT", "PERCENTAGE")

  function RowsText(rows: seq<StatusRow>, w: Widths): string
  {
    if rows == [] then "" else RowsText(rows[..|rows| - 1], w) + PrintRow(rows[|rows| - 1], w)
  }

  /** What one status adds to the table: nothing for an empty group. */
  function GroupText(name: string, rows: seq<StatusRow>): string
  {
    if rows == [] then ""
    else GroupHeading(name, GroupWidths(rows)) + RowsText(rows, GroupWidths(rows))
  }

  function GroupsText(statuses: seq<(string, seq<StatusRow>)>): string
  {
    if statuses == [] then ""
    else GroupsText(statuses[..|statuses| - 1]) + GroupText(statuses[|statuses| - 1].0, statuses[|statuses| - 1].1)
  }

  /** `formatted_statuses += _print_row(row, column_widths)` for each row in turn. */
  method AppendRows(prefix: string, rows: seq<StatusRow>, widths: Widths) returns (out: string)
    ensures out == prefix + RowsText(rows, widths)
  {
    out := prefix;
    var j := 0;
    while j < |rows|
      invariant 0 <= j <= |rows|
      invariant out == prefix + RowsText(rows[..j], widths)
    {
      var line := PrintRow(rows[j], widths);
      RowsTextSnoc(rows, j, widths);
      AppendAssoc(prefix, RowsText(rows[..j], widths), line);
      out := out + line;
      j := j + 1;
    }
    assert rows[..j] == rows;
  }

  /** `_format_quota_statuses`, with the statuses in their dictionary order. */
  method FormatQuotaStatuses(type_: string, statuses: seq<(string, seq<StatusRow>)>) returns (formatted: string)
    ensures formatted == Upper(type_) + GroupsText(statuses)
  {
    formatted := Upper(type_);
    var i := 0;
    while i < |statuses|
      invariant 0 <= i <= |statuses|
      invariant formatted == Upper(type_) + GroupsText(statuses[..i])
    {
      var name, data := statuses[i].0, statuses[i].1;
      var group := "";
      if data != [] {
        var widths := GroupWidths(data);
        group := AppendRows(GroupHeading(name, widths), data, widths);
        GroupTextOf(name, data, widths);
      }
      GroupsTextSnoc(statuses, i);
      AppendAssoc(Upper(type_), GroupsText(statuses[..i]), group);
      formatted := formatted + group;
      i := i + 1;
    }
    assert statuses[..i] == statuses;
  }

  lemma AppendAssoc(a: string, b: string, c: string)
    ensures (a + b) + c == a + (b + c)
  {
  }

  lemma RowsTextSnoc(rows: seq<StatusRow>, j: nat, w: Widths)
    requires j < |rows|
    ensures RowsText(rows[..j + 1], w) == RowsText(rows[..j], w) + PrintRow(rows[j], w)
  {
    assert rows[..j + 1][..j] == rows[..j];
  }

  lemma GroupTextOf(name: string, rows: seq<StatusRow>, w: Widths)
    requires rows != [] && w == GroupWidths(rows)
    ensures GroupText(name, rows) == GroupHeading(name, w) + RowsText(rows, w)
  {
  }

  lemma GroupsTextSnoc(statuses: seq<(string, seq<StatusRow>)>, i: nat)
    requires i < |statuses|
    ensures GroupsText(statuses[..i + 1]) == GroupsText(statuses[..i]) + GroupText(statuses[i].0, statuses[i].1)
  {
    assert statuses[..i + 1][..i] == statuses[..i];
  }

  /**
   * The table is aligned: with percentages of at most ten characters, every
   * user's line in a group is exactly as long as its widths add up to.
   */
  lemma RowsAligned(rows: seq<StatusRow>, k: nat)
    requires k < |rows| && |rows[k].percentage| <= 10
    ensures var w := GroupWidths(rows); |PrintRow(rows[k], w)| == w.email + w.used + w.limit + 22
  {
    var w := GroupWidths(rows);
    WidthsFit(rows);
    var r := rows[k];
    assert |r.email| <= w.email && |r.used| <= w.used && |r.limit| <= w.limit && |r.percentage| <= w.percentage;
    PrintRowLength(r, w);
  }

  /** Each column is as wide as its widest entry and no wider. */
  lemma WidthsFit(rows: seq<StatusRow>)
    requires rows != []
    ensures var w := GroupWidths(rows);
      && (forall k :: 0 <= k < |rows| ==> |rows[k].email| <= w.email && |rows[k].used| <= w.used && |rows[k].limit| <= w.limit)
      && (exists k :: 0 <= k < |rows| && |rows[k].email| == w.email)
      && w.percentage == |Header.percentage|
  {
    var w := GroupWidths(rows);
    forall k | 0 <= k < |rows|
      ensures |rows[k].email| <= w.email && |rows[k].used| <= w.used && |rows[k].limit| <= w.limit
    {
      assert EmailOf(rows[k]) == rows[k].email && UsedOf(rows[k]) == rows[k].used && LimitOf(rows[k]) == rows[k].limit;
    }
    var e :| 0 <= e < |rows| && |EmailOf(rows[e])| == w.email;
    assert |rows[e].email| == w.email;
  }

}
