/** Building one output row from a detail record: the `or "n/a"` field
    defaults and the normalisation of the opening hours into seven
    positional weekday slots. */
module Schedule {
  import opened Places

  const NotAvailable := "n/a"

  /** The weekday names the hours loop enumerates; only their count matters. */
  const Days: seq<string> :=
    ["Monday", "Tuesday", "Wednesday", "Thursday", "Friday", "Saturday", "Sunday"]

  /** The number of weekday slots, `len(days)`. */
  const WeekLength := 7

  /** The number of fields of every written row, `len(header)`. */
  const RowWidth := 12

  /** The header row written before any place. */
  const Header: seq<string> :=
    ["0_ID", "Name", "Address", "Phone Number", "Website",
     "Monday Hours", "Tuesday Hours", "Wednesday Hours", "Thursday Hours",
     "Friday Hours", "Saturday Hours", "Sunday Hours"]

  /** Concatenation of a list of strings. */
  function Concat(xs: seq<string>): string
  {
    if xs == [] then "" else xs[0] + Concat(xs[1..])
  }

  /** `sep.join(xs)`. */
  function Join(sep: string, xs: seq<string>): string
  {
    if xs == [] then "" else if |xs| == 1 then xs[0] else xs[0] + sep + Join(sep, xs[1..])
  }

  /** `textwrap.wrap(t, 2)` on a string with no whitespace and no hyphen:
      consecutive chunks of two characters, the last one possibly of one. */
  function Wrap2(t: string): (chunks: seq<string>)
    ensures Concat(chunks) == t
    ensures forall i :: 0 <= i < |chunks| ==> 1 <= |chunks[i]| <= 2
    ensures forall i :: 0 <= i < |chunks| - 1 ==> |chunks[i]| == 2
    ensures |chunks| == (|t| + 1) / 2
  {
    if t == [] then []
    else if |t| <= 2 then [t]
    else [t[..2]] + Wrap2(t[2..])
  }

  /** `":".join(textwrap.wrap(t, 2))`: "2200" becomes "22:00". */
  function FormatTime(t: string): string
    requires IsDigits(t)
  {
    Join(":", Wrap2(t))
  }

  /** `value or "n/a"` for a field read with `dict.get`. */
  function OrNotAvailable(field: Option<string>): (r: string)
    ensures r != ""
    ensures field.Some? && field.value != "" ==> r == field.value
    ensures field.None? || field.value == "" ==> r == NotAvailable
  {
    match field
    case Some(v) => if v != "" then v else NotAvailable
    case None => NotAvailable
  }

  /** The text of one present period: "HH:MM - HH:MM", or "HH:MM - " when
      the period has no close time. */
  function PeriodText(p: Period): string
    requires PeriodOk(p)
  {
    FormatTime(p.open.value) + " - " + (if p.close.None? then "" else FormatTime(p.close.value))
  }

  /** Slot `i` of the week: the text of `periods[i]`, or "n/a" when the
      hours are falsy or the index is out of range. */
  function Slot(h: OpeningHours, i: nat): string
    requires HoursOk(h) && i < WeekLength
  {
    if h.Hours? && i < |h.periods| then PeriodText(h.periods[i]) else NotAvailable
  }

  /** The seven opening-hour fields of a row, Monday first. */
  function WeeklyHours(h: OpeningHours): seq<string>
    requires HoursOk(h)
  {
    seq(WeekLength, i requires 0 <= i < WeekLength => Slot(h, i))
  }

  /** The twelve fields of the row written for place `placeId`. */
  function BuildRow(placeId: string, d: Detail): (row: seq<string>)
    requires DetailOk(d)
    ensures |row| == RowWidth && row[0] == placeId
    ensures row[1..5] == [OrNotAvailable(d.name), OrNotAvailable(d.formattedAddress),
                          OrNotAvailable(d.phoneNumber), OrNotAvailable(d.website)]
    ensures row[5..] == WeeklyHours(d.openingHours)
  {
    [placeId, OrNotAvailable(d.name), OrNotAvailable(d.formattedAddress),
     OrNotAvailable(d.phoneNumber), OrNotAvailable(d.website)]
    + WeeklyHours(d.openingHours)
  }

  /** The opening-hours loop: one field per weekday, appended in order,
      with the out-of-range index falling back to "n/a". */
  method OpeningFields(openingHours: OpeningHours) returns (fields: seq<string>)
    requires HoursOk(openingHours)
    ensures fields == WeeklyHours(openingHours)
  {
    if openingHours.Hours? {
      fields := [];
      for index := 0 to |Days|
        invariant fields == WeeklyHours(openingHours)[..index]
      {
        if index < |openingHours.periods| {
          var period := openingHours.periods[index];
          var openingHour := FormatTime(period.open.value);
          var closingHour := if period.close.None? then "" else FormatTime(period.close.value);
          fields := fields + [openingHour + " - " + closingHour];
        } else {
          fields := fields + [NotAvailable];
        }
      }
    } else {
      fields := seq(WeekLength, _ => NotAvailable);
    }
  }

  // ----- Properties of the time formatter -----

  /** Drops every ':' from a string. */
  function RemoveColons(s: string): string
  {
    if s == [] then "" else (if s[0] == ':' then "" else [s[0]]) + RemoveColons(s[1..])
  }

  lemma {:induction false} RemoveColonsAppend(a: string, b: string)
    ensures RemoveColons(a + b) == RemoveColons(a) + RemoveColons(b)
  {
    if a == [] {
      assert a + b == b;
    } else {
      assert (a + b)[0] == a[0];
      assert (a + b)[1..] == a[1..] + b;
      RemoveColonsAppend(a[1..], b);
    }
  }

  lemma {:induction false} RemoveColonsOfDigits(t: string)
    requires IsDigits(t)
    ensures RemoveColons(t) == t
  {
    if t != [] {
      RemoveColonsOfDigits(t[1..]);
    }
  }

  /** A time longer than two digits is its first two digits, a colon, and
      the formatted rest. */
  lemma FormatTimeUnfold(t: string)
    requires IsDigits(t) && |t| > 2
    ensures FormatTime(t) == t[..2] + ":" + FormatTime(t[2..])
  {
    var rest := Wrap2(t[2..]);
    assert Wrap2(t) == [t[..2]] + rest;
    assert ([t[..2]] + rest)[1..] == rest;
  }

  /** A time of at most two digits is left as it is. */
  lemma FormatTimeShort(t: string)
    requires IsDigits(t) && |t| <= 2
    ensures FormatTime(t) == t
  {
  }

  /** A four-digit "HHMM" becomes "HH:MM". */
  lemma FormatTimeFourDigits(t: string)
    requires IsDigits(t) && |t| == 4
    ensures FormatTime(t) == t[..2] + ":" + t[2..]
  {
    FormatTimeUnfold(t);
    FormatTimeShort(t[2..]);
  }

  /** Formatting only inserts colons: removing them gives the time back. */
  lemma {:induction false} FormatTimeRoundTrip(t: string)
    requires IsDigits(t)
    ensures RemoveColons(FormatTime(t)) == t
  {
    if |t| <= 2 {
      FormatTimeShort(t);
      RemoveColonsOfDigits(t);
    } else {
      var rest := FormatTime(t[2..]);
      FormatTimeUnfold(t);
      FormatTimeRoundTrip(t[2..]);
      RemoveColonsAppend(t[..2] + ":", rest);
      RemoveColonsAppend(t[..2], ":");
      RemoveColonsOfDigits(t[..2]);
      assert RemoveColons(":") == "";
      assert t[..2] + t[2..] == t;
    }
  }

  // ----- Properties of the weekly hours -----

  /** A present period never prints as "n/a". */
  lemma PeriodTextNotAvailable(p: Period)
    requires PeriodOk(p)
    ensures PeriodText(p) != NotAvailable
  {
    var r := PeriodText(p);
    var o := FormatTime(p.open.value);
    assert r[|o| + 1] == '-';
    assert NotAvailable[1] != '-';
  }

  /** Exactly seven fields, all "n/a" when the hours are falsy. */
  lemma WeeklyHoursShape(h: OpeningHours)
    requires HoursOk(h)
    ensures |WeeklyHours(h)| == 7
    ensures h.NoHours? ==> WeeklyHours(h) == [NotAvailable, NotAvailable, NotAvailable,
                                              NotAvailable, NotAvailable, NotAvailable, NotAvailable]
  {
  }

  /** With hours present, slot `i` is "n/a" exactly when there is no period
      at index `i`, and is that period's text otherwise. */
  lemma WeeklyHoursSlot(h: OpeningHours, i: nat)
    requires HoursOk(h) && h.Hours? && i < 7
    ensures |WeeklyHours(h)| == 7
    ensures WeeklyHours(h)[i] == NotAvailable <==> |h.periods| <= i
    ensures i < |h.periods| ==> WeeklyHours(h)[i] == PeriodText(h.periods[i])
  {
    if i < |h.periods| {
      PeriodTextNotAvailable(h.periods[i]);
    }
  }

  /** Periods past the seventh are never read. */
  lemma WeeklyHoursIgnoresExtraPeriods(periods: seq<Period>)
    requires HoursOk(Hours(periods)) && |periods| > 7
    ensures HoursOk(Hours(periods[..7]))
    ensures WeeklyHours(Hours(periods)) == WeeklyHours(Hours(periods[..7]))
  {
  }

  /** A single period fills Monday; every other day is "n/a". */
  lemma SinglePeriodWeek(p: Period)
    requires PeriodOk(p)
    ensures WeeklyHours(Hours([p])) == [PeriodText(p), NotAvailable, NotAvailable, NotAvailable,
                                        NotAvailable, NotAvailable, NotAvailable]
  {
  }

  /** The period "0900" to "1700" prints as "09:00 - 17:00". */
  lemma PeriodTextExample()
    ensures PeriodText(Period(Some("0900"), Some("1700"))) == "09:00 - 17:00"
  {
  }

  /** One period 09:00 to 17:00 fills Monday; the rest are "n/a". */
  lemma WeeklyHoursExample()
    ensures WeeklyHours(Hours([Period(Some("0900"), Some("1700"))]))
         == ["09:00 - 17:00", "n/a", "n/a", "n/a", "n/a", "n/a", "n/a"]
  {
    PeriodTextExample();
    SinglePeriodWeek(Period(Some("0900"), Some("1700")));
  }

  /** An open time with no close time leaves the closing side empty. */
  lemma PeriodTextNoClose()
    ensures PeriodText(Period(Some("0000"), None)) == "00:00 - "
  {
    FormatTimeFourDigits("0000");
  }

  /** The four descriptive fields of a detail record, in header order. */
  function Descriptive(d: Detail): (fields: seq<Option<string>>)
    ensures |fields| == 4
  {
    [d.name, d.formattedAddress, d.phoneNumber, d.website]
  }

  /** A row has as many fields as the header has columns. Each descriptive
      field is the service's value when that is non-empty, and reads "n/a"
      exactly when the value is missing, empty, or itself "n/a". */
  lemma RowMatchesHeader(placeId: string, d: Detail)
    requires DetailOk(d)
    ensures |BuildRow(placeId, d)| == |Header| == RowWidth
    ensures forall k :: 1 <= k < 5 ==> BuildRow(placeId, d)[k] != ""
    ensures forall k :: 1 <= k < 5 ==>
      (BuildRow(placeId, d)[k] == NotAvailable <==>
       Descriptive(d)[k - 1].None? || Descriptive(d)[k - 1].value == "" ||
       Descriptive(d)[k - 1].value == NotAvailable)
    ensures forall k :: 1 <= k < 5 && Descriptive(d)[k - 1].Some? && Descriptive(d)[k - 1].value != "" ==>
      BuildRow(placeId, d)[k] == Descriptive(d)[k - 1].value
    ensures d.formattedAddress.None? ==> BuildRow(placeId, d)[2] == NotAvailable
    ensures d.website.Some? && d.website.value != "" ==> BuildRow(placeId, d)[4] == d.website.value
  {
    var row := BuildRow(placeId, d);
    forall k | 1 <= k < 5 ensures row[k] == OrNotAvailable(Descriptive(d)[k - 1]) {
      assert row[k] == row[1..5][k - 1];
    }
  }
}
