/**
 * The validation and field selection of the Quectel modem's position report
 * (Overkill.Core/QuectelModemPositioningService.cs, `ParseModemData`): the text after the
 * first `$GPRMC` tag is split on commas, and fields 3 and 5 of that RMC sentence of
 * NMEA 0183 are the latitude and the longitude. The coordinates are kept as the raw field
 * text; their conversion to degrees is floating point and is not part of this model.
 */
module ModemPositioning {
  import opened Wrappers
  import opened Strings

  /** The tag that starts the recommended-minimum sentence. */
  const Tag: string := "$GPRMC"

  /** A successful parse: the raw latitude and longitude fields. */
  datatype Fix = Fix(latitude: string, longitude: string)

  /** The text `ParseModemData` examines: after the first tag, up to the next tag or the end. */
  function Segment(data: string): (r: string)
    requires Contains(data, Tag)
    ensures var rest := data[IndexOf(data, Tag).value + |Tag|..];
      && !Contains(r, Tag)
      && r <= rest
      && (|r| == |rest| || OccursAt(rest, Tag, |r|))
  {
    SecondPiece(data, Tag);
    FirstPiece(data[IndexOf(data, Tag).value + |Tag|..], Tag);
    Split(data, Tag)[1]
  }

  /** The comma-separated fields of the examined segment. */
  function Fields(data: string): (r: seq<string>)
    requires Contains(data, Tag)
    ensures |r| >= 1 && Join(r, ",") == Segment(data)
    ensures forall k :: 0 <= k < |r| ==> ',' !in r[k]
  {
    var r := Split(Segment(data), ",");
    forall k | 0 <= k < |r| ensures ',' !in r[k] {
      CommaFree(r[k]);
    }
    r
  }

  /** A string in which `","` does not occur has no comma. */
  lemma CommaFree(s: string)
    requires !Contains(s, ",")
    ensures ',' !in s
  {
    if ',' in s {
      var j :| 0 <= j < |s| && s[j] == ',';
      assert OccursAt(s, ",", j);
    }
  }

  /** `ParseModemData(data)` (QuectelModemPositioningService.cs:86-105), `None` for `(false, 0, 0)`. */
  function ParseModemData(data: string): (r: Option<Fix>)
    ensures !Contains(data, Tag) ==> r == None
    ensures r.Some? ==>
      && |Fields(data)| >= 6
      && r.value == Fix(Fields(data)[3], Fields(data)[5])
      && r.value.latitude != "" && r.value.longitude != ""
    ensures Contains(data, Tag) && |Fields(data)| >= 6 && Fields(data)[3] != "" && Fields(data)[5] != "" ==> r.Some?
  {
    if !Contains(data, Tag) then None
    else
      var dataPoints := Fields(data);
      if |dataPoints| < 6 then None
      else if |dataPoints[3]| < 1 || |dataPoints[5]| < 1 then None
      else Some(Fix(dataPoints[3], dataPoints[5]))
  }

  /** No proper suffix of the tag is a prefix of it: only its first character is `$`. */
  lemma TagUnbordered()
    ensures Unbordered(Tag)
  {
    forall d | 0 < d < |Tag| ensures Tag[d..] != Tag[..|Tag| - d] {
      assert Tag[d..][0] != '$';
    }
  }

  /** The examined segment of a report whose first tag is followed by `seg` and then by another tag. */
  lemma SegmentBeforeNextTag(pre: string, seg: string, next: string)
    requires !Contains(pre, Tag) && !Contains(seg, Tag)
    ensures Contains(pre + Tag + seg + Tag + next, Tag) && Segment(pre + Tag + seg + Tag + next) == seg
  {
    TagUnbordered();
    PieceBetween(pre, Tag, seg, next);
  }

  /** The examined segment of a report whose first tag is followed by `seg` up to the end. */
  lemma SegmentToEnd(pre: string, seg: string)
    requires !Contains(pre, Tag) && !Contains(seg, Tag)
    ensures Contains(pre + Tag + seg, Tag) && Segment(pre + Tag + seg) == seg
  {
    TagUnbordered();
    LastPiece(pre, Tag, seg);
  }

  /** The report whose first tag is followed by `seg`, and then by another tag and `next`, or by nothing. */
  function Report(pre: string, seg: string, next: Option<string>): string {
    match next
    case Some(n) => pre + Tag + seg + Tag + n
    case None => pre + Tag + seg
  }

  /** The examined segment of a `Report` is `seg`. */
  lemma SegmentOf(pre: string, seg: string, next: Option<string>)
    requires !Contains(pre, Tag) && !Contains(seg, Tag)
    ensures Contains(Report(pre, seg, next), Tag) && Segment(Report(pre, seg, next)) == seg
  {
    match next
    case Some(n) => SegmentBeforeNextTag(pre, seg, n);
    case None => SegmentToEnd(pre, seg);
  }

  /** The fields of a `Report` whose segment is assembled from comma-free, tag-free fields. */
  lemma FieldsOf(pre: string, fields: seq<string>, next: Option<string>)
    requires !Contains(pre, Tag) && |fields| >= 1
    requires forall k :: 0 <= k < |fields| ==> ',' !in fields[k] && !Contains(fields[k], Tag)
    ensures Contains(Report(pre, Join(fields, ","), next), Tag)
    ensures Fields(Report(pre, Join(fields, ","), next)) == fields
  {
    JoinedFieldsTagFree(fields);
    FieldsOfReport(pre, Join(fields, ","), fields, next);
  }

  /** Tag-free fields joined by commas are tag-free, since the tag has no comma. */
  lemma JoinedFieldsTagFree(fields: seq<string>)
    requires forall k :: 0 <= k < |fields| ==> ',' !in fields[k] && !Contains(fields[k], Tag)
    ensures !Contains(Join(fields, ","), Tag)
  {
    assert Tag[0] == '$' && ',' !in Tag;
    JoinAvoids(fields, ',', Tag);
  }

  /** The fields of a `Report` whose tag-free segment is joined from comma-free fields. */
  lemma FieldsOfReport(pre: string, seg: string, fields: seq<string>, next: Option<string>)
    requires !Contains(pre, Tag) && !Contains(seg, Tag)
    requires |fields| >= 1 && seg == Join(fields, ",")
    requires forall k :: 0 <= k < |fields| ==> ',' !in fields[k]
    ensures Contains(Report(pre, seg, next), Tag) && Fields(Report(pre, seg, next)) == fields
  {
    SegmentOf(pre, seg, next);
    FieldsOfSegment(Report(pre, seg, next), fields);
  }

  /** A report whose examined segment is joined from comma-free fields has exactly those fields. */
  lemma FieldsOfSegment(data: string, fields: seq<string>)
    requires Contains(data, Tag) && |fields| >= 1
    requires forall k :: 0 <= k < |fields| ==> ',' !in fields[k]
    requires Segment(data) == Join(fields, ",")
    ensures Fields(data) == fields
  {
    SplitJoin(fields, ',');
  }

  /**
   * A sentence assembled from its fields parses back to fields 3 and 5, whatever text without
   * the tag came before it and whatever sentence follows it.
   */
  lemma ParsesAssembledSentence(pre: string, fields: seq<string>, next: Option<string>)
    requires !Contains(pre, Tag)
    requires |fields| >= 6 && fields[3] != "" && fields[5] != ""
    requires forall k :: 0 <= k < |fields| ==> ',' !in fields[k] && !Contains(fields[k], Tag)
    ensures ParseModemData(Report(pre, Join(fields, ","), next)) == Some(Fix(fields[3], fields[5]))
  {
    FieldsOf(pre, fields, next);
  }

  /** Only the first sentence is examined: what follows the next tag does not change the result. */
  lemma LaterSentencesIgnored(pre: string, seg: string, next: string, next': string)
    requires !Contains(pre, Tag) && !Contains(seg, Tag)
    ensures ParseModemData(pre + Tag + seg + Tag + next) == ParseModemData(pre + Tag + seg + Tag + next')
  {
    SegmentBeforeNextTag(pre, seg, next);
    SegmentBeforeNextTag(pre, seg, next');
  }

  /** A sentence with fewer than six fields is rejected. */
  lemma TooFewFieldsRejected(pre: string, fields: seq<string>, next: Option<string>)
    requires !Contains(pre, Tag)
    requires 1 <= |fields| < 6
    requires forall k :: 0 <= k < |fields| ==> ',' !in fields[k] && !Contains(fields[k], Tag)
    ensures ParseModemData(Report(pre, Join(fields, ","), next)) == None
  {
    FieldsOf(pre, fields, next);
  }

  /** A sentence with an empty latitude or longitude field is rejected. */
  lemma EmptyCoordinateRejected(pre: string, fields: seq<string>, next: Option<string>)
    requires !Contains(pre, Tag)
    requires |fields| >= 6 && (fields[3] == "" || fields[5] == "")
    requires forall k :: 0 <= k < |fields| ==> ',' !in fields[k] && !Contains(fields[k], Tag)
    ensures ParseModemData(Report(pre, Join(fields, ","), next)) == None
  {
    FieldsOf(pre, fields, next);
  }
}
