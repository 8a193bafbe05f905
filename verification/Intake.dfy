/** The contract every alert meets before it reaches the inbox
    (`validate_raw_alert`), and what it guarantees behind the intake boundary. */
module Intake {
  import opened AlertIdentity
  import opened Common
  import opened JsonValue
  import opened PyText

  const SUPPORTED_PRODUCTS := {"hips", "rasp", "ndr", "waf", "siem"}
  const SEVERITIES := {"critical", "high", "medium", "low"}
  const MAX_FIELD := 256
  const MAX_TIMESTAMP := 64

  /** `DEFAULT_SEVERITY_MAP.get(severity, severity)`. */
  function MappedSeverity(s: string): string {
    if s in {"critical", "严重", "高危", "1"} then "critical"
    else if s in {"high", "高", "2"} then "high"
    else if s in {"medium", "中", "中危", "3"} then "medium"
    else if s in {"low", "低", "4", "5", "info", "informational"} then "low"
    else s
  }

  /** What intake reads from outside: hexadecimal digits for a new identifier, the
      rendered clock, and the test for an ISO-8601 time with an offset. */
  datatype Arrival = Arrival(digits: string, clock: string, isTime: string -> bool)

  /** The names under which the sources report a severity. */
  predicate Names(name: string, severity: string) {
    || (severity == "critical" && name in {"critical", "严重", "高危", "1"})
    || (severity == "high" && name in {"high", "高", "2"})
    || (severity == "medium" && name in {"medium", "中", "中危", "3"})
    || (severity == "low" && name in {"low", "低", "4", "5", "info", "informational"})
  }

  /** A name stands for its severity, and an unknown name for itself. */
  lemma NamesAreMapped(name: string, severity: string)
    ensures Names(name, severity) ==> MappedSeverity(name) == severity
    ensures MappedSeverity(name) != name ==> Names(name, MappedSeverity(name))
  {
  }

  predicate IsHexText(s: string) { forall i :: 0 <= i < |s| ==> '0' <= s[i] <= '9' || 'a' <= s[i] <= 'f' }

  /** What identifier and clock are like: hexadecimal digits and a visible time. */
  predicate IsPlain(x: Arrival) { IsHexText(x.digits) && x.clock != "" && Strip(x.clock) == x.clock }

  /** `validate_raw_alert`; `None` is its ValueError. */
  function Validate(a: Alert, x: Arrival): Option<Alert> {
    var product := Lower(Strip(a.product));
    var source := Strip(a.source);
    var eventType := Strip(a.eventType);
    var severity := MappedSeverity(Lower(Strip(a.severity)));
    var alertId := if Strip(a.alertId) != "" then Strip(a.alertId) else "alert_" + x.digits;
    var timestamp := if Strip(a.timestamp) != "" then Strip(a.timestamp) else x.clock;
    if product !in SUPPORTED_PRODUCTS then None
    else if source == "" || |source| > MAX_FIELD then None
    else if eventType == "" || eventType == "unknown" || |eventType| > MAX_FIELD then None
    else if severity !in SEVERITIES then None
    else if |alertId| > MAX_FIELD || !a.payload.Object? then None
    else if |timestamp| > MAX_TIMESTAMP || !x.isTime(timestamp) then None
    else Some(Alert(alertId, source, product, eventType, severity, timestamp, a.payload))
  }

  /** What the inbox may rely on. */
  predicate IsValidated(a: Alert) {
    && a.product in SUPPORTED_PRODUCTS
    && a.source != "" && Strip(a.source) == a.source && |a.source| <= MAX_FIELD
    && a.eventType != "" && a.eventType != "unknown" && Strip(a.eventType) == a.eventType && |a.eventType| <= MAX_FIELD
    && a.severity in SEVERITIES
    && a.alertId != "" && Strip(a.alertId) == a.alertId && |a.alertId| <= MAX_FIELD
    && a.payload.Object?
    && a.timestamp != "" && Strip(a.timestamp) == a.timestamp && |a.timestamp| <= MAX_TIMESTAMP
  }

  lemma HexIdStrips(digits: string)
    requires IsHexText(digits)
    ensures Strip("alert_" + digits) == "alert_" + digits
  {
    var id := "alert_" + digits;
    hide Strip;
    assert !IsSpace(id[|id| - 1]);
    StripDrops("", id);
    assert "" + id == id;
  }

  /** Whatever passes is validated, and keeps the submitted evidence. */
  lemma ValidateEstablishes(a: Alert, x: Arrival)
    requires IsPlain(x) && Validate(a, x).Some?
    ensures IsValidated(Validate(a, x).value) && Validate(a, x).value.payload == a.payload
    ensures Strip(a.alertId) != "" ==> Validate(a, x).value.alertId == Strip(a.alertId)
  {
    hide Strip, MappedSeverity, Lower;
    StripTrims(a.source);
    StripTrims(a.eventType);
    StripTrims(a.alertId);
    StripTrims(a.timestamp);
    HexIdStrips(x.digits);
  }

  /** An alert is accepted exactly if it names a supported product, a source, an event type and
      a severity, its fields are not too long, its payload is an object, and its time, or else
      the time of arrival, reads as one. */
  lemma AcceptedExactly(a: Alert, x: Arrival)
    ensures var source, kind, severity := Strip(a.source), Strip(a.eventType), MappedSeverity(Lower(Strip(a.severity)));
      var id := if Strip(a.alertId) == "" then "alert_" + x.digits else Strip(a.alertId);
      var time := if Strip(a.timestamp) == "" then x.clock else Strip(a.timestamp);
      && (Validate(a, x).Some? <==>
            && Lower(Strip(a.product)) in {"hips", "ndr", "rasp", "siem", "waf"}
            && 1 <= |source| <= 256 && 1 <= |kind| <= 256 && kind != "unknown"
            && severity in {"critical", "high", "medium", "low"}
            && |id| <= 256 && |time| <= 64 && x.isTime(time) && a.payload.Object?)
      && (Validate(a, x).Some? ==>
            Validate(a, x).value == Alert(id, source, Lower(Strip(a.product)), kind, severity, time, a.payload))
  {
    hide Strip, Lower, MappedSeverity;
  }

  predicate IsWord(s: string) { s != "" && forall i :: 0 <= i < |s| ==> 'a' <= s[i] <= 'z' }

  lemma WordsStay(s: string)
    requires IsWord(s)
    ensures Lower(s) == s && Strip(s) == s
  {
    hide Strip;
    assert forall i :: 0 <= i < |s| ==> Lower(s)[i] == s[i];
    StripDrops("", s);
    assert "" + s == s;
  }

  lemma KnownWords(s: string)
    requires s in SUPPORTED_PRODUCTS || s in SEVERITIES
    ensures Lower(s) == s && Strip(s) == s && s != ""
  {
    hide Strip, Lower;
    assert IsWord(s);
    WordsStay(s);
  }

  lemma SeveritiesStay(s: string)
    requires s in SEVERITIES
    ensures MappedSeverity(s) == s
  {
  }

  /** A validated alert passes again unchanged, as long as its time reads as one. */
  lemma ValidateAgain(a: Alert, x: Arrival)
    requires IsValidated(a) && x.isTime(a.timestamp)
    ensures Validate(a, x) == Some(a)
  {
    KnownWords(a.product);
    KnownWords(a.severity);
    SeveritiesStay(a.severity);
    hide Strip, MappedSeverity, Lower;
  }

  /** The raw copy that processing stores of a validated alert has the identity of its
      submission, so a resubmission never collides with it. */
  lemma RawCopyKeepsIdentity(a: Alert)
    requires IsValidated(a)
    ensures IdentityOf(AsStoredRaw(a)) == IdentityOf(a)
  {
    KnownWords(a.product);
    KnownWords(a.severity);
    hide Strip, Lower, Scrub;
  }
}
