/**
 * The history screen (src/components/GameHistory.tsx): the merged,
 * newest-first record list rendered as rows, each with the owner's name
 * and colour, the local time as HH:MM:SS, the category label and icon and
 * the points with their sign, or a placeholder when there are no records.
 *
 * The local clock reading of a timestamp comes from the host's `Date`
 * and is a parameter here.
 */
module GameHistoryView {
  import opened Types
  import opened Wrappers
  import opened JsNumbers
  import opened GameHistory

  type Hour = h: nat | h < 24
  type Sixty = m: nat | m < 60

  /** The local time of day a timestamp falls on. */
  datatype Clock = Clock(hours: Hour, minutes: Sixty, seconds: Sixty)

  /** Hours, minutes and seconds, each padded with '0' to two digits and
      joined by ':'. */
  function TimeString(c: Clock): (r: string)
    ensures |r| == 8 && r[2] == ':' && r[5] == ':'
    ensures AllDigits(r[0..2], 10) && DigitsValue(r[0..2], 10) == c.hours
    ensures AllDigits(r[3..5], 10) && DigitsValue(r[3..5], 10) == c.minutes
    ensures AllDigits(r[6..8], 10) && DigitsValue(r[6..8], 10) == c.seconds
  {
    Pad2Digits(c.hours);
    Pad2Digits(c.minutes);
    Pad2Digits(c.seconds);
    var r := Pad2(c.hours) + ":" + Pad2(c.minutes) + ":" + Pad2(c.seconds);
    assert r[0..2] == Pad2(c.hours);
    assert r[3..5] == Pad2(c.minutes);
    assert r[6..8] == Pad2(c.seconds);
    r
  }

  /** The points as shown: a '+' before positive values, the plain text
      (with its own '-') otherwise. The text starts with '+' exactly when
      the points are positive, and reads back as the points. After the
      '+', the text is the canonical numeral of the points, with a '-'
      before it for negative points, so 0 shows as "0" and 5 as "+5". */
  function PointsText(p: int): (r: string)
    ensures |r| > 0
    ensures r[0] == '+' <==> p > 0
    ensures ParseInt(r) == Some(p)
    ensures var d := if p > 0 then r[1..] else r;
      (p >= 0 ==> Canonical(d) && DigitsValue(d, 10) == p) &&
      (p < 0 ==> d[0] == '-' && Canonical(d[1..]) && DigitsValue(d[1..], 10) == -p)
  {
    NatToStringDigits(if p < 0 then -p else p);
    if p > 0 then
      ParseIntOfPlusSigned(p);
      "+" + IntToString(p)
    else
      IntToString(p)
  }

  datatype Style = PositiveStyle | NegativeStyle

  /** One rendered row of the list. */
  datatype Row = Row(
    playerName: string,
    borderColor: string,
    time: string,
    display: Display,
    pointsText: string,
    style: Style)

  /** The row of one tagged record at local time `c`: the positive style
      and the '+' sign go together, and only with positive points. */
  function RowOf(h: HistoryRecord, c: Clock): (row: Row)
    ensures row.playerName == h.playerName && row.borderColor == h.playerColor
    ensures row.time == TimeString(c)
    ensures row.display == RecordDisplay(h.record)
    ensures row.style == PositiveStyle <==> h.record.points > 0
    ensures row.pointsText == PointsText(h.record.points)
    ensures |row.pointsText| > 0 && (row.pointsText[0] == '+' <==> row.style == PositiveStyle)
  {
    Row(h.playerName, h.playerColor, TimeString(c), RecordDisplay(h.record),
        PointsText(h.record.points),
        if h.record.points > 0 then PositiveStyle else NegativeStyle)
  }

  datatype Screen = Placeholder | Rows(rows: seq<Row>)

  /** Merge and sort the records of all players and render them; with no
      records at all the placeholder is shown instead of a list. */
  method Render(players: seq<Player>, localTime: int -> Clock) returns (records: seq<HistoryRecord>, screen: Screen)
    ensures NewestFirst(records) && SameOrderPerTimestamp(records, Flatten(players))
    ensures multiset(records) == multiset(Flatten(players))
    ensures screen.Placeholder? <==> TotalRecords(players) == 0
    ensures screen.Rows? ==> |screen.rows| == |records|
    ensures screen.Rows? ==> forall i :: 0 <= i < |records| ==>
      screen.rows[i] == RowOf(records[i], localTime(Timestamp(records[i])))
  {
    records := BuildHistoryRecords(players);
    if |records| == 0 {
      screen := Placeholder;
    } else {
      screen := Rows(seq(|records|, i requires 0 <= i < |records| => RowOf(records[i], localTime(Timestamp(records[i])))));
    }
  }
}
