/** The date handling of the run queries (src/runs.py): timestamps of query results,
    the date closest to the current time, and the inclusive date-range filter. */
module Temporal {
  import opened Results
  import opened Seqs
  import opened Json
  import opened Dates

  // ---- Timestamps of query results ----

  /** `entry['metadata']['timestamp']`, which must be a string for `.split` to apply. */
  function TimestampText(entry: JVal): (r: Result<string>)
    ensures r.Ok? <==>
      entry.JObj? && Lookup(entry.fields, "metadata").Some? &&
      Lookup(entry.fields, "metadata").value.JObj? &&
      Lookup(Lookup(entry.fields, "metadata").value.fields, "timestamp").Some? &&
      Lookup(Lookup(entry.fields, "metadata").value.fields, "timestamp").value.JStr?
    ensures r.Ok? ==> PathValue(entry, ["metadata", "timestamp"]) == Some(JStr(r.value))
  {
    var metadata :- GetItem(entry, "metadata");
    var stamp :- GetItem(metadata, "timestamp");
    assert PathValue(entry, ["metadata", "timestamp"]) == PathValue(metadata, ["timestamp"]) by {
      PathCons(entry, "metadata", ["timestamp"]);
      assert ["metadata", "timestamp"] == ["metadata"] + ["timestamp"];
    }
    PathOne(metadata, "timestamp");
    if stamp.JStr? then Ok(stamp.s) else Err(WrongType)
  }

  /** `s.split('T')[0]`: the text before the first 'T', or all of `s` when it has none. */
  function DatePart(s: string): (r: string)
    ensures |r| <= |s| && r == s[..|r|]
    ensures 'T' !in r
    ensures |r| < |s| ==> s[|r|] == 'T'
    decreases |s|
  {
    if s == [] || s[0] == 'T' then [] else [s[0]] + DatePart(s[1..])
  }

  /** The date of one query result: its timestamp up to the first 'T', parsed as
      `'%Y-%m-%d'`. */
  function EntryDate(entry: JVal): (r: Result<Date>)
    ensures TimestampText(entry).Err? ==> r == Err(TimestampText(entry).error)
    ensures TimestampText(entry).Ok? && r.Ok? ==>
      ValidDate(r.value) && FormatDate(r.value) == DatePart(TimestampText(entry).value)
    ensures TimestampText(entry).Ok? && r.Err? ==>
      r.error == DateFormatError(DatePart(TimestampText(entry).value))
  {
    var stamp :- TimestampText(entry);
    var r := ParseDate(DatePart(stamp));
    if r.Ok? then FormatParse(DatePart(stamp)); r else r
  }

  /** `get_timestamps(run_json)`. */
  function Timestamps(entries: seq<JVal>): Result<seq<Date>> {
    MapAll(entries, EntryDate)
  }

  method GetTimestamps(runJson: seq<JVal>) returns (r: Result<seq<Date>>)
    ensures r == Timestamps(runJson)
  {
    var timestampsDates: seq<Date> := [];
    for i := 0 to |runJson|
      invariant Timestamps(runJson[..i]) == Ok(timestampsDates)
    {
      MapAllSnoc(runJson[..i], EntryDate, runJson[i]);
      assert runJson[..i + 1] == runJson[..i] + [runJson[i]];
      var entry := runJson[i];
      var stamp := TimestampText(entry);
      if stamp.Err? {
        MapAllStopsAt(runJson, EntryDate, i);
        return Err(stamp.error);
      }
      var stampDatetime := ParseDate(DatePart(stamp.value));
      if stampDatetime.Err? {
        MapAllStopsAt(runJson, EntryDate, i);
        return Err(stampDatetime.error);
      }
      timestampsDates := timestampsDates + [stampDatetime.value];
    }
    assert runJson[..|runJson|] == runJson;
    return Ok(timestampsDates);
  }

  /** One valid date per entry, in order; each is the parse of the entry's timestamp up
      to its first 'T', and that text is exactly the date's `'%Y-%m-%d'` form. */
  lemma TimestampsOneToOne(entries: seq<JVal>)
    requires Timestamps(entries).Ok?
    ensures var ds := Timestamps(entries).value;
      |ds| == |entries| &&
      forall i :: 0 <= i < |entries| ==>
        TimestampText(entries[i]).Ok? && ValidDate(ds[i]) &&
        ParseDate(DatePart(TimestampText(entries[i]).value)) == Ok(ds[i]) &&
        FormatDate(ds[i]) == DatePart(TimestampText(entries[i]).value)
  {
    MapAllOneToOne(entries, EntryDate);
    var ds := Timestamps(entries).value;
    forall i | 0 <= i < |entries|
      ensures FormatDate(ds[i]) == DatePart(TimestampText(entries[i]).value)
    {
      FormatParse(DatePart(TimestampText(entries[i]).value));
    }
  }

  /** The timestamps fail exactly when some entry's date cannot be read, with the error
      of the first such entry. */
  lemma TimestampsFirstError(entries: seq<JVal>) returns (k: nat)
    requires Timestamps(entries).Err?
    ensures k < |entries| && EntryDate(entries[k]) == Err(Timestamps(entries).error)
    ensures forall j :: 0 <= j < k ==> EntryDate(entries[j]).Ok?
  {
    k := MapAllFirstError(entries, EntryDate);
  }

  // ---- The date closest to now ----

  /** `abs(d - now)` in microseconds, with `d` at midnight and `now` a microsecond count
      on the same time line (midnight of day `n` is `n * MicrosPerDay`). */
  function Distance(d: Date, nowMicros: int): (r: nat)
    requires 1 <= d.month <= 12
    ensures Ordinal(d) * MicrosPerDay == nowMicros + r || Ordinal(d) * MicrosPerDay == nowMicros - r
  {
    var t := Ordinal(d) * MicrosPerDay;
    if t <= nowMicros then nowMicros - t else t - nowMicros
  }

  predicate AllValid(ds: seq<Date>) {
    forall i :: 0 <= i < |ds| ==> ValidDate(ds[i])
  }

  /** `min(ds, key=distance)`: the index `min` returns, which keeps the first of several
      equally close dates. */
  function ClosestIndex(ds: seq<Date>, nowMicros: int): (k: nat)
    requires |ds| > 0 && AllValid(ds)
    ensures k < |ds|
    ensures forall j :: 0 <= j < |ds| ==> Distance(ds[k], nowMicros) <= Distance(ds[j], nowMicros)
    ensures forall j :: 0 <= j < k ==> Distance(ds[k], nowMicros) < Distance(ds[j], nowMicros)
    decreases |ds|
  {
    if |ds| == 1 then 0
    else
      var n := |ds| - 1;
      assert forall i :: 0 <= i < n ==> ds[..n][i] == ds[i];
      var k := ClosestIndex(ds[..n], nowMicros);
      if Distance(ds[n], nowMicros) < Distance(ds[k], nowMicros) then n else k
  }

  /** `find_timestamp_closest_to_today(run_json)` with the clock reading `nowMicros`:
      the closest date in `'%Y-%m-%d'` form; `min` of no dates is a ValueError. */
  function ClosestTimestamp(entries: seq<JVal>, nowMicros: int): Result<string> {
    var ds :- Timestamps(entries);
    TimestampsAllValid(entries);
    if ds == [] then Err(EmptySequence)
    else Ok(FormatDate(ds[ClosestIndex(ds, nowMicros)]))
  }

  lemma TimestampsAllValid(entries: seq<JVal>)
    ensures Timestamps(entries).Ok? ==>
      |Timestamps(entries).value| == |entries| && AllValid(Timestamps(entries).value)
  {
    if Timestamps(entries).Ok? {
      MapAllOneToOne(entries, EntryDate);
    }
  }

  method FindTimestampClosestToToday(runJson: seq<JVal>, nowMicros: int) returns (r: Result<string>)
    ensures r == ClosestTimestamp(runJson, nowMicros)
  {
    var timestampsDates := GetTimestamps(runJson);
    if timestampsDates.Err? {
      return Err(timestampsDates.error);
    }
    var ds := timestampsDates.value;
    TimestampsAllValid(runJson);
    if ds == [] {
      return Err(EmptySequence);
    }
    var closestDate := ds[ClosestIndex(ds, nowMicros)];
    return Ok(FormatDate(closestDate));
  }

  /** The closest date is the date of some entry `k`; no entry's date is closer to now;
      every entry before `k` is strictly farther; and the answer is exactly the text
      before the first 'T' of entry `k`'s timestamp. */
  lemma ClosestTimestampChoice(entries: seq<JVal>, nowMicros: int) returns (k: nat)
    requires ClosestTimestamp(entries, nowMicros).Ok?
    ensures Timestamps(entries).Ok? && k < |entries|
    ensures var ds := Timestamps(entries).value;
      |ds| == |entries| && AllValid(ds) &&
      ClosestTimestamp(entries, nowMicros).value == FormatDate(ds[k]) &&
      (forall j :: 0 <= j < |ds| ==> Distance(ds[k], nowMicros) <= Distance(ds[j], nowMicros)) &&
      (forall j :: 0 <= j < k ==> Distance(ds[k], nowMicros) < Distance(ds[j], nowMicros))
    ensures TimestampText(entries[k]).Ok? &&
      ClosestTimestamp(entries, nowMicros).value == DatePart(TimestampText(entries[k]).value)
  {
    TimestampsAllValid(entries);
    var ds := Timestamps(entries).value;
    k := ClosestIndex(ds, nowMicros);
    TimestampsOneToOne(entries);
  }

  /** The selection fails exactly when a timestamp cannot be read (with that error) or
      there is no entry at all. */
  lemma ClosestTimestampErrors(entries: seq<JVal>, nowMicros: int)
    ensures ClosestTimestamp(entries, nowMicros).Err? <==> Timestamps(entries).Err? || entries == []
    ensures Timestamps(entries).Err? ==>
      ClosestTimestamp(entries, nowMicros) == Err(Timestamps(entries).error)
    ensures entries == [] ==> ClosestTimestamp(entries, nowMicros) == Err(EmptySequence)
  {
    TimestampsAllValid(entries);
  }

  // ---- The inclusive date range ----

  /** `start <= d <= end`. */
  predicate InRange(d: Date, start: Date, end: Date) {
    NotAfter(start, d) && NotAfter(d, end)
  }

  /** `find_dates_within_range(timestamps, start, end)`. */
  function DatesWithin(ds: seq<Date>, start: Date, end: Date): seq<Date>
    decreases |ds|
  {
    if ds == [] then []
    else
      var init := DatesWithin(ds[..|ds| - 1], start, end);
      if InRange(ds[|ds| - 1], start, end) then init + [ds[|ds| - 1]] else init
  }

  method FindDatesWithinRange(timestamps: seq<Date>, startDatetime: Date, endDatetime: Date)
    returns (relevantDates: seq<Date>)
    ensures relevantDates == DatesWithin(timestamps, startDatetime, endDatetime)
  {
    relevantDates := [];
    for i := 0 to |timestamps|
      invariant relevantDates == DatesWithin(timestamps[..i], startDatetime, endDatetime)
    {
      assert timestamps[..i + 1][..i] == timestamps[..i];
      var stamp := timestamps[i];
      if NotAfter(startDatetime, stamp) && NotAfter(stamp, endDatetime) {
        relevantDates := relevantDates + [stamp];
      }
    }
    assert timestamps[..|timestamps|] == timestamps;
  }

  lemma NotAfterTransitive(a: Date, b: Date, c: Date)
    requires NotAfter(a, b) && NotAfter(b, c)
    ensures NotAfter(a, c)
  {
  }

  /** The dates kept are the order-preserving subsequence of those in `[start, end]`, both
      bounds included, each date kept as often as it occurs; none is kept when `end` is
      before `start`. */
  lemma {:induction false} DatesWithinSpec(ds: seq<Date>, start: Date, end: Date)
    ensures Subseq(DatesWithin(ds, start, end), ds)
    ensures forall d :: d in DatesWithin(ds, start, end) <==> d in ds && InRange(d, start, end)
    ensures forall d ::
              multiset(DatesWithin(ds, start, end))[d] ==
              if InRange(d, start, end) then multiset(ds)[d] else 0
    ensures !NotAfter(start, end) ==> DatesWithin(ds, start, end) == []
    decreases |ds|
  {
    if ds != [] {
      var init, last := ds[..|ds| - 1], ds[|ds| - 1];
      DatesWithinSpec(init, start, end);
      assert ds == init + [last];
      assert multiset(ds) == multiset(init) + multiset{last};
      if InRange(last, start, end) {
        assert multiset(DatesWithin(ds, start, end)) == multiset(DatesWithin(init, start, end)) + multiset{last};
        SubseqBothSnoc(DatesWithin(init, start, end), init, last);
        if !NotAfter(start, end) {
          NotAfterTransitive(start, last, end);
        }
      } else {
        SubseqSnoc(DatesWithin(init, start, end), init, last);
      }
    }
  }

  /** `get_results_within_date_range(json_data_tmp, relevant_dates)`: the entries whose
      date is one of `relevant`, in order. */
  function ResultsWithDates(entries: seq<JVal>, relevant: seq<Date>): Result<seq<JVal>>
    decreases |entries|
  {
    if entries == [] then Ok([])
    else
      var init :- ResultsWithDates(entries[..|entries| - 1], relevant);
      var d :- EntryDate(entries[|entries| - 1]);
      Ok(if d in relevant then init + [entries[|entries| - 1]] else init)
  }

  method GetResultsWithinDateRange(jsonDataTmp: seq<JVal>, relevantDates: seq<Date>)
    returns (r: Result<seq<JVal>>)
    ensures r == ResultsWithDates(jsonDataTmp, relevantDates)
  {
    var jsonData: seq<JVal> := [];
    for i := 0 to |jsonDataTmp|
      invariant ResultsWithDates(jsonDataTmp[..i], relevantDates) == Ok(jsonData)
    {
      assert jsonDataTmp[..i + 1][..i] == jsonDataTmp[..i];
      var entry := jsonDataTmp[i];
      var stamp := TimestampText(entry);
      var stampDatetime := if stamp.Ok? then ParseDate(DatePart(stamp.value)) else Err(stamp.error);
      if stampDatetime.Err? {
        ResultsWithDatesStopsAt(jsonDataTmp, relevantDates, i);
        return Err(stampDatetime.error);
      }
      if stampDatetime.value in relevantDates {
        jsonData := jsonData + [entry];
      }
    }
    assert jsonDataTmp[..|jsonDataTmp|] == jsonDataTmp;
    return Ok(jsonData);
  }

  /** An entry whose date cannot be read ends the filter with that entry's error. */
  lemma {:induction false} ResultsWithDatesStopsAt(entries: seq<JVal>, relevant: seq<Date>, i: nat)
    requires i < |entries| && ResultsWithDates(entries[..i], relevant).Ok? && EntryDate(entries[i]).Err?
    ensures ResultsWithDates(entries, relevant) == Err(EntryDate(entries[i]).error)
    decreases |entries|
  {
    var init := entries[..|entries| - 1];
    if i < |entries| - 1 {
      assert init[..i] == entries[..i] && init[i] == entries[i];
      ResultsWithDatesStopsAt(init, relevant, i);
    } else {
      assert init == entries[..i];
    }
  }

  /** The entries whose (readable) date lies in `[start, end]`, in order: the reference
      the range filter is measured against. */
  function EntriesInRange(entries: seq<JVal>, start: Date, end: Date): seq<JVal>
    decreases |entries|
  {
    if entries == [] then []
    else
      var init := EntriesInRange(entries[..|entries| - 1], start, end);
      var last := entries[|entries| - 1];
      if EntryDate(last).Ok? && InRange(EntryDate(last).value, start, end) then init + [last] else init
  }

  /** The reference keeps exactly the entries whose date is in range, in order, each as
      often as it occurs. */
  lemma {:induction false} EntriesInRangeSpec(entries: seq<JVal>, start: Date, end: Date)
    ensures Subseq(EntriesInRange(entries, start, end), entries)
    ensures forall x :: x in EntriesInRange(entries, start, end) <==>
      x in entries && EntryDate(x).Ok? && InRange(EntryDate(x).value, start, end)
    ensures forall x ::
              multiset(EntriesInRange(entries, start, end))[x] ==
              if EntryDate(x).Ok? && InRange(EntryDate(x).value, start, end) then multiset(entries)[x] else 0
    decreases |entries|
  {
    if entries != [] {
      var init, last := entries[..|entries| - 1], entries[|entries| - 1];
      EntriesInRangeSpec(init, start, end);
      assert entries == init + [last];
      assert multiset(entries) == multiset(init) + multiset{last};
      if EntryDate(last).Ok? && InRange(EntryDate(last).value, start, end) {
        assert multiset(EntriesInRange(entries, start, end)) ==
          multiset(EntriesInRange(init, start, end)) + multiset{last};
        SubseqBothSnoc(EntriesInRange(init, start, end), init, last);
      } else {
        SubseqSnoc(EntriesInRange(init, start, end), init, last);
      }
    }
  }

  /** Filtering the entries by membership of their date in `relevant` keeps exactly the
      entries whose date is in range, whenever `relevant` holds, among the dates of
      `entries`, exactly those in range. */
  lemma {:induction false} ResultsWithDatesInRange(entries: seq<JVal>, relevant: seq<Date>, start: Date, end: Date)
    requires Timestamps(entries).Ok?
    requires forall d :: d in Timestamps(entries).value ==> (d in relevant <==> InRange(d, start, end))
    ensures ResultsWithDates(entries, relevant) == Ok(EntriesInRange(entries, start, end))
    decreases |entries|
  {
    if entries != [] {
      var init, last := entries[..|entries| - 1], entries[|entries| - 1];
      assert entries == init + [last];
      MapAllSnoc(init, EntryDate, last);
      var ds := Timestamps(entries).value;
      assert Timestamps(init).Ok?;
      assert ds == Timestamps(init).value + [EntryDate(last).value];
      assert forall d :: d in Timestamps(init).value ==> d in ds;
      ResultsWithDatesInRange(init, relevant, start, end);
      assert EntryDate(last).value in ds;
    }
  }

  /** The two steps of the range query compose to the reference: dates in range are
      found first, then the entries carrying one of them are kept. */
  lemma RangeFilterAgrees(entries: seq<JVal>, start: Date, end: Date)
    requires Timestamps(entries).Ok?
    ensures ResultsWithDates(entries, DatesWithin(Timestamps(entries).value, start, end)) ==
      Ok(EntriesInRange(entries, start, end))
  {
    DatesWithinSpec(Timestamps(entries).value, start, end);
    ResultsWithDatesInRange(entries, DatesWithin(Timestamps(entries).value, start, end), start, end);
  }

  // ---- Examples ----

  /** Noon of 2024-06-01 is as far from 2024-06-02 as from 2024-06-01; `min` keeps the
      first of the two in list order, whichever it is. */
  lemma ClosestTieKeepsFirst()
    ensures var noon := Ordinal(Date(2024, 6, 1)) * MicrosPerDay + MicrosPerDay / 2;
      ClosestIndex([Date(2024, 6, 2), Date(2024, 6, 1)], noon) == 0 &&
      ClosestIndex([Date(2024, 6, 1), Date(2024, 6, 2)], noon) == 0
  {
  }

  /** A date after now can be the closest: on 2024-06-20 at midnight, 2024-06-25 is closer
      than 2024-06-01. */
  lemma ClosestMayLieAhead()
    ensures ClosestIndex([Date(2024, 6, 1), Date(2024, 6, 25)], Ordinal(Date(2024, 6, 20)) * MicrosPerDay) == 1
  {
  }

  /** Both bounds are inclusive. */
  lemma RangeBoundsInclusive()
    ensures DatesWithin([Date(2024, 1, 1), Date(2024, 3, 5), Date(2024, 7, 1), Date(2024, 7, 2)],
                        Date(2024, 1, 1), Date(2024, 7, 1))
      == [Date(2024, 1, 1), Date(2024, 3, 5), Date(2024, 7, 1)]
  {
    var ds := [Date(2024, 1, 1), Date(2024, 3, 5), Date(2024, 7, 1), Date(2024, 7, 2)];
    var s, e := Date(2024, 1, 1), Date(2024, 7, 1);
    assert ds[..1][..0] == [];
    assert DatesWithin(ds[..1], s, e) == [ds[0]];
    assert ds[..2][..1] == ds[..1];
    assert DatesWithin(ds[..2], s, e) == [ds[0], ds[1]];
    assert ds[..3][..2] == ds[..2];
    assert DatesWithin(ds[..3], s, e) == [ds[0], ds[1], ds[2]];
    assert ds[..3] == ds[..|ds| - 1];
  }
}
