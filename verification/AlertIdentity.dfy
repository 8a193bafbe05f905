/** Immutable source-event identity of an alert (`_alert_identity_json`) and the
    receipt scrub below it.  Rendering the identity record with sorted keys is
    injective, so identities are compared as records here. */
module AlertIdentity {
  import opened JsonValue

  datatype Alert = Alert(
    alertId: string,
    source: string,
    product: string,
    eventType: string,
    severity: string,
    timestamp: string,
    payload: Value)

  datatype Identity = Identity(
    source: string,
    product: string,
    eventType: string,
    severity: string,
    timestamp: string,
    payload: Value)

  const RECEIPT_KEY := "syslog_received_at"
  const ENVELOPE_RECEIPT_KEY := "received_at"

  predicate IsEnvelopeKey(key: string) {
    key == "_syslog_envelope" || key == "syslog_envelope" || key == "syslog_route"
  }

  /** Drops collector receipt timestamps, wherever they are nested. */
  function Scrub(v: Value): Value
    decreases v, 0
  {
    match v
    case Array(items) => Array(seq(|items|, i requires 0 <= i < |items| => Scrub(items[i])))
    case Object(fields) => Object(map k | k in fields && k != RECEIPT_KEY :: ScrubMember(k, fields[k]))
    case _ => v
  }

  /** A transport envelope loses its own receipt; its other members are scrubbed
      as values, so an envelope's `syslog_received_at` member survives. */
  function ScrubMember(key: string, item: Value): Value
    decreases item, 1
  {
    if IsEnvelopeKey(key) && item.Object? then
      Object(map n | n in item.fields && n != ENVELOPE_RECEIPT_KEY :: Scrub(item.fields[n]))
    else
      Scrub(item)
  }

  /** Python truthiness default: `str(x or d)` on a string. */
  function OrElse(s: string, default: string): string {
    if s == "" then default else s
  }

  function LowerChar(c: char): char {
    if 'A' <= c <= 'Z' then c - 'A' + 'a' else c
  }

  function Lower(s: string): string {
    seq(|s|, i requires 0 <= i < |s| => LowerChar(s[i]))
  }

  lemma LowerIs(s: string, i: nat)
    requires i < |s|
    ensures |Lower(s)| == |s|
    ensures Lower(s)[i] == if 'A' <= s[i] <= 'Z' then (s[i] as int + 32) as char else s[i]
  {
  }

  function IdentityOf(a: Alert): Identity {
    Identity(
      OrElse(a.source, "unknown"),
      Lower(OrElse(a.product, "unknown")),
      OrElse(a.eventType, "unknown"),
      Lower(OrElse(a.severity, "medium")),
      a.timestamp,
      Scrub(a.payload))
  }

  /** What the raw table holds once the dispatcher has rebuilt an inbox record
      (`_raw_alert_from_inbox`) and the orchestrator has inserted it; a payload that is
      no object is replaced by an empty one. */
  function AsStoredRaw(a: Alert): Alert {
    a.(payload := if a.payload.Object? then a.payload else Object(map[]),
       source := OrElse(a.source, "unknown"),
       product := Lower(OrElse(a.product, "siem")),
       eventType := OrElse(a.eventType, "unknown"),
       severity := Lower(OrElse(a.severity, "medium")))
  }

  /** Equality of evidence up to receipts, defined without scrubbing: the same
      tree once every receipt member is disregarded on both sides. */
  ghost predicate SameEvidence(v: Value, w: Value)
    decreases v, 0
  {
    match (v, w)
    case (Array(a), Array(b)) =>
      |a| == |b| && forall i :: 0 <= i < |a| ==> SameEvidence(a[i], b[i])
    case (Object(a), Object(b)) =>
      && (forall k :: k != "syslog_received_at" ==> (k in a <==> k in b))
      && (forall k :: k in a && k in b && k != "syslog_received_at" ==> SameMember(k, a[k], b[k]))
    case _ => v == w
  }

  ghost predicate SameMember(key: string, v: Value, w: Value)
    decreases v, 1
  {
    if key in {"_syslog_envelope", "syslog_envelope", "syslog_route"} && v.Object? && w.Object? then
      && (forall n :: n != "received_at" ==> (n in v.fields <==> n in w.fields))
      && (forall n :: n in v.fields && n in w.fields && n != "received_at" ==>
            SameEvidence(v.fields[n], w.fields[n]))
    else SameEvidence(v, w)
  }

  lemma {:induction false} ScrubIdempotent(v: Value)
    ensures Scrub(Scrub(v)) == Scrub(v)
    decreases v, 0
  {
    match v
    case Array(items) =>
      forall i | 0 <= i < |items| ensures Scrub(Scrub(items[i])) == Scrub(items[i]) { ScrubIdempotent(items[i]); }
    case Object(fields) =>
      forall k | k in fields
        ensures ScrubMember(k, ScrubMember(k, fields[k])) == ScrubMember(k, fields[k])
      {
        ScrubMemberIdempotent(k, fields[k]);
      }
    case _ =>
  }

  lemma {:induction false} ScrubMemberIdempotent(key: string, item: Value)
    ensures ScrubMember(key, ScrubMember(key, item)) == ScrubMember(key, item)
    decreases item, 1
  {
    if IsEnvelopeKey(key) && item.Object? {
      forall n | n in item.fields ensures Scrub(Scrub(item.fields[n])) == Scrub(item.fields[n]) {
        ScrubIdempotent(item.fields[n]);
      }
    } else {
      ScrubIdempotent(item);
    }
  }

  /** The scrubbed payloads agree exactly when the evidence agrees up to receipts. */
  lemma {:induction false} ScrubDecidesSameEvidence(v: Value, w: Value)
    ensures Scrub(v) == Scrub(w) <==> SameEvidence(v, w)
    decreases v, 0
  {
    match (v, w)
    case (Array(a), Array(b)) =>
      forall i | 0 <= i < |a| && i < |b| ensures Scrub(a[i]) == Scrub(b[i]) <==> SameEvidence(a[i], b[i]) {
        ScrubDecidesSameEvidence(a[i], b[i]);
      }
      var p, q := Scrub(v).items, Scrub(w).items;
      assert |p| == |a| && |q| == |b|;
      assert forall i :: 0 <= i < |a| ==> p[i] == Scrub(a[i]);
      assert forall i :: 0 <= i < |b| ==> q[i] == Scrub(b[i]);
      assert SameEvidence(v, w) ==> p == q;
    case (Object(a), Object(b)) =>
      forall k | k in a && k in b && k != RECEIPT_KEY
        ensures ScrubMember(k, a[k]) == ScrubMember(k, b[k]) <==> SameMember(k, a[k], b[k])
      {
        ScrubMemberDecides(k, a[k], b[k]);
      }
      var p, q := Scrub(v).fields, Scrub(w).fields;
      if p == q {
        assert forall k :: k != RECEIPT_KEY ==> (k in a <==> k in p) && (k in b <==> k in q);
        assert forall k :: k in p ==> p[k] == q[k];
      }
    case _ =>
  }

  lemma {:induction false} ScrubMemberDecides(key: string, v: Value, w: Value)
    ensures ScrubMember(key, v) == ScrubMember(key, w) <==> SameMember(key, v, w)
    decreases v, 1
  {
    if IsEnvelopeKey(key) && v.Object? && w.Object? {
      forall n | n in v.fields && n in w.fields
        ensures Scrub(v.fields[n]) == Scrub(w.fields[n]) <==> SameEvidence(v.fields[n], w.fields[n])
      {
        ScrubDecidesSameEvidence(v.fields[n], w.fields[n]);
      }
      var p, q := ScrubMember(key, v).fields, ScrubMember(key, w).fields;
      if p == q {
        assert forall n :: n != ENVELOPE_RECEIPT_KEY ==> (n in v.fields <==> n in p) && (n in w.fields <==> n in q);
        assert forall n :: n in p ==> p[n] == q[n];
      }
    } else {
      ScrubDecidesSameEvidence(v, w);
    }
  }

  /** Two alerts share an identity exactly when their headers normalise alike
      and their payloads are the same evidence up to receipts. */
  lemma IdentityDecidesEvidence(a: Alert, b: Alert)
    ensures IdentityOf(a) == IdentityOf(b) <==>
              && OrElse(a.source, "unknown") == OrElse(b.source, "unknown")
              && Lower(OrElse(a.product, "unknown")) == Lower(OrElse(b.product, "unknown"))
              && OrElse(a.eventType, "unknown") == OrElse(b.eventType, "unknown")
              && Lower(OrElse(a.severity, "medium")) == Lower(OrElse(b.severity, "medium"))
              && a.timestamp == b.timestamp
              && SameEvidence(a.payload, b.payload)
  {
    ScrubDecidesSameEvidence(a.payload, b.payload);
  }
}
