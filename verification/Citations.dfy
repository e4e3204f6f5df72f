/** The citation of an event: the first public link among its evidence fields, or why there is none. */
module Citations {
  import opened Wrappers

  datatype CitationStatus = Traceable | CitationMissing | CitationRejected

  datatype Citation = Citation(
    status: CitationStatus, url: Option<string>, sourceField: Option<string>, reasons: seq<string>)

  const EVIDENCE_FIELDS: seq<string> := ["source_url", "detail_url", "source_report_url", "dataset_url"]

  /** The text values of an event's payload. */
  type Payload = map<string, string>

  /** `str.strip`, and whether a link is public, with the reasons. */
  datatype Links = Links(strip: string -> string, check: string -> (bool, seq<string>))

  /** The link of a field, if the field holds more than blanks. */
  function Candidate(links: Links, payload: Payload, field: string): Option<string> {
    if field in payload && links.strip(payload[field]) != "" then Some(links.strip(payload[field])) else None
  }

  predicate Public(links: Links, payload: Payload, field: string) {
    var link := Candidate(links, payload, field);
    link.Some? && links.check(link.value).0
  }

  /** Why the link of a field is rejected, each reason under the field's name. */
  function Rejections(links: Links, payload: Payload, field: string): seq<string> {
    var link := Candidate(links, payload, field);
    if link.None? || links.check(link.value).0 then []
    else
      var reasons := links.check(link.value).1;
      seq(|reasons|, i requires 0 <= i < |reasons| => field + ":" + reasons[i])
  }

  /** `dict.fromkeys`: each value once, where it comes first. */
  function Once(values: seq<string>): (r: seq<string>)
    ensures forall v :: v in r <==> v in values
    ensures forall i, j :: 0 <= i < j < |r| ==> r[i] != r[j]
  {
    if values == [] then []
    else
      var before, last := Once(values[..|values| - 1]), values[|values| - 1];
      assert values == values[..|values| - 1] + [last];
      if last in before then before else before + [last]
  }

  /** The citation when none of the fields read so far was public. */
  function CitationFrom(links: Links, payload: Payload, fields: seq<string>, rejected: seq<string>): Citation {
    if fields == [] then
      if rejected != [] then Citation(CitationRejected, None, None, Once(rejected))
      else Citation(CitationMissing, None, None, ["no_source_evidence_url"])
    else if Public(links, payload, fields[0]) then
      var link := Candidate(links, payload, fields[0]).value;
      Citation(Traceable, Some(link), Some(fields[0]), links.check(link).1)
    else CitationFrom(links, payload, fields[1..], rejected + Rejections(links, payload, fields[0]))
  }

  /** `validate_event_citation` */
  method ValidateEventCitation(links: Links, payload: Payload) returns (c: Citation)
    ensures c == CitationFrom(links, payload, EVIDENCE_FIELDS, [])
  {
    var rejected: seq<string> := [];
    var fields := EVIDENCE_FIELDS;
    for i := 0 to |fields|
      invariant CitationFrom(links, payload, fields, []) == CitationFrom(links, payload, fields[i..], rejected)
    {
      assert fields[i..][1..] == fields[i + 1..];
      var link := Candidate(links, payload, fields[i]);
      if link.Some? {
        var (public, reasons) := links.check(link.value);
        if public {
          return Citation(Traceable, Some(link.value), Some(fields[i]), reasons);
        }
      }
      rejected := rejected + Rejections(links, payload, fields[i]);
    }
    c := if rejected != [] then Citation(CitationRejected, None, None, Once(rejected))
    else Citation(CitationMissing, None, None, ["no_source_evidence_url"]);
  }

  /** A citation is traceable exactly when some field has a public link, and then it has a non-empty link. */
  lemma {:induction false} TraceableExactly(links: Links, payload: Payload, fields: seq<string>, rejected: seq<string>)
    ensures var c := CitationFrom(links, payload, fields, rejected);
            && (c.status == Traceable <==> exists f :: f in fields && Public(links, payload, f))
            && (c.status == Traceable ==> c.url.Some? && c.url.value != "" && c.sourceField.Some? && c.sourceField.value in fields)
            && (c.status != Traceable ==> c.url.None? && c.sourceField.None?)
  {
    if fields != [] {
      assert fields == [fields[0]] + fields[1..];
      TraceableExactly(links, payload, fields[1..], rejected + Rejections(links, payload, fields[0]));
    }
  }

  // ---- which link is cited, and why none is ----

  /** The field holds this link, stripped of blanks. */
  predicate HoldsLink(links: Links, payload: Payload, field: string, link: string) {
    field in payload && links.strip(payload[field]) == link && link != ""
  }

  ghost predicate HoldsPublic(links: Links, payload: Payload, field: string) {
    exists link :: HoldsLink(links, payload, field, link) && links.check(link).0
  }

  /** Field `i` is the first with a public link, and this cites it. */
  ghost predicate CitesFirst(links: Links, payload: Payload, fields: seq<string>, i: nat, c: Citation) {
    && i < |fields| && (forall j :: 0 <= j < i ==> !HoldsPublic(links, payload, fields[j]))
    && exists link :: HoldsLink(links, payload, fields[i], link) && links.check(link).0
                      && c == Citation(Traceable, Some(link), Some(fields[i]), links.check(link).1)
  }

  /** The text is a reason, under its field's name, why that field's link is not public. */
  ghost predicate Rejects(links: Links, payload: Payload, fields: seq<string>, text: string) {
    exists field, link, reason ::
      && field in fields && HoldsLink(links, payload, field, link) && !links.check(link).0
      && reason in links.check(link).1 && text == field + ":" + reason
  }

  lemma RejectionsMeaning(links: Links, payload: Payload, field: string, text: string)
    ensures text in Rejections(links, payload, field) <==> Rejects(links, payload, [field], text)
  {
    if text in Rejections(links, payload, field) {
      var i :| 0 <= i < |Rejections(links, payload, field)| && Rejections(links, payload, field)[i] == text;
      var link := links.strip(payload[field]);
      assert field in [field] && HoldsLink(links, payload, field, link);
      assert links.check(link).1[i] in links.check(link).1;
    }
    if Rejects(links, payload, [field], text) {
      var f, link, reason :|
        && f in [field] && HoldsLink(links, payload, f, link) && !links.check(link).0
        && reason in links.check(link).1 && text == f + ":" + reason;
      var i :| 0 <= i < |links.check(link).1| && links.check(link).1[i] == reason;
      assert Rejections(links, payload, field)[i] == text;
    }
  }

  lemma RejectsSplit(links: Links, payload: Payload, fields: seq<string>, text: string)
    requires fields != []
    ensures Rejects(links, payload, fields, text) <==>
              Rejects(links, payload, [fields[0]], text) || Rejects(links, payload, fields[1..], text)
  {
    assert fields == [fields[0]] + fields[1..];
    assert fields[0] in [fields[0]];
  }

  lemma PublicMeaning(links: Links, payload: Payload, field: string)
    ensures Public(links, payload, field) <==> HoldsPublic(links, payload, field)
  {
    if Public(links, payload, field) {
      assert HoldsLink(links, payload, field, links.strip(payload[field]));
    }
  }

  /** With a public link the first one is cited. */
  lemma {:induction false} FirstPublicCited(links: Links, payload: Payload, fields: seq<string>, rejected: seq<string>, i: nat)
    requires i < |fields| && HoldsPublic(links, payload, fields[i])
    requires forall j :: 0 <= j < i ==> !HoldsPublic(links, payload, fields[j])
    ensures CitesFirst(links, payload, fields, i, CitationFrom(links, payload, fields, rejected))
  {
    PublicMeaning(links, payload, fields[0]);
    if i == 0 {
      assert HoldsLink(links, payload, fields[0], links.strip(payload[fields[0]]));
    } else {
      FirstPublicCited(links, payload, fields[1..], rejected + Rejections(links, payload, fields[0]), i - 1);
    }
  }

  /** The citation without any link. */
  ghost predicate CitesNone(links: Links, payload: Payload, fields: seq<string>, rejected: seq<string>, c: Citation) {
    && c.url.None? && c.sourceField.None?
    && (c.status == CitationRejected || c.status == CitationMissing)
    && (c.status == CitationMissing ==> c.reasons == ["no_source_evidence_url"])
    && (c.status == CitationMissing <==> forall text :: text !in rejected && !Rejects(links, payload, fields, text))
    && (c.status == CitationRejected ==>
          && (forall text :: text in c.reasons <==> text in rejected || Rejects(links, payload, fields, text))
          && forall i, j :: 0 <= i < j < |c.reasons| ==> c.reasons[i] != c.reasons[j])
  }

  lemma NothingLeft(links: Links, payload: Payload, rejected: seq<string>)
    ensures CitesNone(links, payload, [], rejected, CitationFrom(links, payload, [], rejected))
  {
    assert rejected == [] || rejected[0] in rejected;
  }

  lemma NonePassedOn(links: Links, payload: Payload, fields: seq<string>, rejected: seq<string>, c: Citation)
    requires fields != []
    requires CitesNone(links, payload, fields[1..], rejected + Rejections(links, payload, fields[0]), c)
    ensures CitesNone(links, payload, fields, rejected, c)
  {
    forall text ensures text in rejected + Rejections(links, payload, fields[0]) || Rejects(links, payload, fields[1..], text)
                        <==> text in rejected || Rejects(links, payload, fields, text)
    {
      RejectionsMeaning(links, payload, fields[0], text);
      RejectsSplit(links, payload, fields, text);
    }
  }

  /** Without a public link the reasons of all rejected ones are listed, each once. */
  lemma {:induction false} NonePublicCited(links: Links, payload: Payload, fields: seq<string>, rejected: seq<string>)
    requires forall j :: 0 <= j < |fields| ==> !HoldsPublic(links, payload, fields[j])
    ensures CitesNone(links, payload, fields, rejected, CitationFrom(links, payload, fields, rejected))
  {
    if fields == [] {
      NothingLeft(links, payload, rejected);
    } else {
      PublicMeaning(links, payload, fields[0]);
      NonePublicCited(links, payload, fields[1..], rejected + Rejections(links, payload, fields[0]));
      NonePassedOn(
        links, payload, fields, rejected, CitationFrom(links, payload, fields[1..], rejected + Rejections(links, payload, fields[0])));
    }
  }
}
