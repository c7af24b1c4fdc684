/** The incident record and the three ways the server builds one: the
    manual report (`POST /api/incidents`), the SMS webhook and the voice
    report. Each builder either rejects its input or yields the record that
    the route then appends to the store. */
module Incidents {
  import opened Wrappers
  import opened Text
  import opened Seqs
  import opened Categorizer
  import opened Location

  /** The `source` field of SMS and voice incidents; manual reports have none. */
  datatype Channel = Sms | Voice

  /** An ISO-8601 timestamp together with the hour `new Date(iso).getHours()`
      gives in the server's time zone. An invalid date, whose hour is NaN,
      carries an hour outside 0..23: every comparison the server makes with
      NaN is false, and so is every comparison with such an hour. */
  datatype Timestamp = Timestamp(iso: string, hour: int)

  datatype Incident = Incident(
    id: string,
    description: string,
    category: Category,
    latitude: Coordinate,
    longitude: Coordinate,
    timestamp: Timestamp,
    createdAt: Timestamp,
    source: Option<Channel>,
    reporterPhone: Option<string>)

  /** JavaScript truthiness of a request coordinate: an absent value, the
      empty string and the number 0 are falsy; every other string, even
      "0", is truthy. */
  predicate Truthy(c: Option<Coordinate>) {
    match c
    case None => false
    case Some(Lexeme(t)) => t != ""
    case Some(Number(v)) => v != 0.0
  }

  /** `timestamp || now`: a request timestamp is used when it is a
      non-empty string. */
  function TimestampOr(timestamp: Option<Timestamp>, now: Timestamp): (t: Timestamp)
    ensures timestamp.Some? && timestamp.value.iso != "" ==> t == timestamp.value
    ensures timestamp.None? || timestamp.value.iso == "" ==> t == now
  {
    if timestamp.Some? && timestamp.value.iso != "" then timestamp.value else now
  }

  /** `POST /api/incidents`: a report lacking a description, a latitude or a
      longitude is rejected (None); otherwise the new record carries the
      request's fields, the category of its description and the request
      timestamp or the current time. `topLabel` is the classifier's answer
      for the description, `id` and `now` stand for `Date.now()` and
      `new Date()`. */
  function ManualReport(description: string, latitude: Option<Coordinate>, longitude: Option<Coordinate>,
                        timestamp: Option<Timestamp>, topLabel: Option<string>, id: string, now: Timestamp): (r: Option<Incident>)
    ensures r.None? <==> description == "" || !Truthy(latitude) || !Truthy(longitude)
    ensures r.Some? ==> r.value.description == description && r.value.description != ""
    ensures r.Some? ==> r.value.category == CategorizeIncident(description, topLabel)
    ensures r.Some? ==> Some(r.value.latitude) == latitude && Some(r.value.longitude) == longitude
    ensures r.Some? ==> r.value.timestamp == TimestampOr(timestamp, now) && r.value.createdAt == now
    ensures r.Some? ==> r.value.id == id && r.value.source.None? && r.value.reporterPhone.None?
  {
    if description == "" || !Truthy(latitude) || !Truthy(longitude) then None
    else Some(Incident(id, description, CategorizeIncident(description, topLabel),
                       latitude.value, longitude.value, TimestampOr(timestamp, now), now, None, None))
  }

  /** `POST /api/voice-report`: the same validation with the transcription
      as the description; the record is stamped with the current time. */
  function VoiceReport(transcription: string, latitude: Option<Coordinate>, longitude: Option<Coordinate>,
                       topLabel: Option<string>, id: string, now: Timestamp): (r: Option<Incident>)
    ensures r.None? <==> transcription == "" || !Truthy(latitude) || !Truthy(longitude)
    ensures r.Some? ==> r.value.description == transcription && r.value.description != ""
    ensures r.Some? ==> r.value.category == CategorizeIncident(transcription, topLabel)
    ensures r.Some? ==> Some(r.value.latitude) == latitude && Some(r.value.longitude) == longitude
    ensures r.Some? ==> r.value.timestamp == now && r.value.createdAt == now
    ensures r.Some? ==> r.value.id == id && r.value.source == Some(Voice) && r.value.reporterPhone.None?
  {
    if transcription == "" || !Truthy(latitude) || !Truthy(longitude) then None
    else Some(Incident(id, transcription, CategorizeIncident(transcription, topLabel),
                       latitude.value, longitude.value, now, now, Some(Voice), None))
  }

  /** The SMS text with its coordinates removed and the rest trimmed; this is
      what the classifier sees. */
  function SmsText(body: string): (d: string)
    ensures |d| <= |body|
  {
    Trim(StripCoordinates(body))
  }

  /** `description || Body`: the stored description, which falls back to the
      whole message when nothing is left after stripping. */
  function SmsDescription(body: string): (d: string)
    ensures SmsText(body) != "" ==> d == SmsText(body)
    ensures SmsText(body) == "" ==> d == body
  {
    var text := SmsText(body);
    if text == "" then body else text
  }

  /** `POST /api/sms-report`: an empty message creates nothing; otherwise the
      location is read from the message (or defaults), the coordinate-free
      text is categorised, and the record is stamped with the current time
      and the sender's number. `topLabel` is the classifier's answer for
      `SmsText(body)`. */
  function SmsReport(body: string, from: string, topLabel: Option<string>, id: string, now: Timestamp): (r: Option<Incident>)
    ensures r.None? <==> body == ""
    ensures r.Some? ==> r.value.description == SmsDescription(body) && r.value.description != ""
    ensures r.Some? ==> r.value.category == CategorizeIncident(SmsText(body), topLabel)
    ensures r.Some? ==> Coordinates(r.value.latitude, r.value.longitude) == ParseLocation(body)
    ensures r.Some? ==> r.value.timestamp == now && r.value.createdAt == now
    ensures r.Some? ==> r.value.id == id && r.value.source == Some(Sms) && r.value.reporterPhone == Some(from)
  {
    if body == "" then None
    else
      var location := ParseLocation(body);
      Some(Incident(id, SmsDescription(body), CategorizeIncident(SmsText(body), topLabel),
                    location.latitude, location.longitude, now, now, Some(Sms), Some(from)))
  }

  /** A message without digits keeps the default location, and its stored
      description is the trimmed message, or the message itself when that
      is blank. */
  lemma SmsWithoutCoordinates(body: string, from: string, topLabel: Option<string>, id: string, now: Timestamp)
    requires body != ""
    requires forall k :: 0 <= k < |body| ==> !IsDigit(body[k])
    ensures var r := SmsReport(body, from, topLabel, id, now);
      && r.Some?
      && Coordinates(r.value.latitude, r.value.longitude) == DefaultCoordinates
      && r.value.description == (if Trim(body) == "" then body else Trim(body))
      && r.value.category == CategorizeIncident(Trim(body), topLabel)
  {
    NoDigitDefault(body);
  }

  /** A message with coordinates loses exactly the matched span: what is
      categorised is the trimmed remainder around it, and the stored
      location is the pair of numbers inside it. */
  lemma SmsWithCoordinates(body: string, from: string, topLabel: Option<string>, id: string, now: Timestamp)
    requires FindMatch(body).Some?
    ensures var m := FindMatch(body).value;
      var r := SmsReport(body, from, topLabel, id, now);
      && r.Some?
      && SmsText(body) == Trim(body[..m.start] + body[m.end..])
      && r.value.latitude == Lexeme(body[m.latFrom..m.latTo])
      && r.value.longitude == Lexeme(body[m.lngFrom..m.end])
      && NumberSpan(body, m.latFrom, m.latTo) && NumberSpan(body, m.lngFrom, m.end)
  {
    ParsedCoordinatesAreStripped(body);
    assert body != [];
  }

  /** `incidents.filter(incident => incident.id !== id)`. */
  function RemoveById(incidents: seq<Incident>, id: string): (r: seq<Incident>)
    ensures forall k :: 0 <= k < |r| ==> r[k].id != id
    ensures IsSubsequence(r, incidents)
    ensures forall x: Incident :: multiset(r)[x] == if x.id != id then multiset(incidents)[x] else 0
    ensures |r| == |incidents| <==> forall k :: 0 <= k < |incidents| ==> incidents[k].id != id
    ensures (forall k :: 0 <= k < |incidents| ==> incidents[k].id != id) ==> r == incidents
  {
    var keep := (x: Incident) => x.id != id;
    FilterIsSubsequence(incidents, keep);
    FilterMultiset(incidents, keep);
    FilterKeepsAll(incidents, keep);
    Filter(incidents, keep)
  }
}
