/** Which payloads an event id may be reused for: an accepted update never changes a
    payload's identity, over any number of updates. */
module EventIdentity {
  import opened Common

  datatype Value = Text(text: string) | Number(number: int) | Other(tag: string)

  type Payload = map<string, Value>

  const SYSLOG_MUTABLE := {"received_at"}
  const CAMPAIGN_MUTABLE := {"phase", "outcome", "rollback_deadline", "ticket_id", "incident_id", "event_id"}
  const CAMPAIGN := Text("campaign_phase")

  predicate IsSyslog(p: Payload) {
    && "schema_version" in p && p["schema_version"] == Number(2)
    && "source_kind" in p && p["source_kind"].Text?
  }

  predicate IsCampaign(p: Payload) {
    "kind" in p && p["kind"] == CAMPAIGN
  }

  predicate ValidKeys(existing: Payload, proposed: Payload, mutable: set<string>) {
    && existing.Keys == proposed.Keys
    && forall key :: key in existing.Keys - mutable ==> existing[key] == proposed[key]
  }

  /** The branches of the check, in their order. */
  predicate Accepts(existing: Payload, proposed: Payload) {
    if IsSyslog(existing) && IsSyslog(proposed) then ValidKeys(existing, proposed, SYSLOG_MUTABLE)
    else if IsCampaign(existing) && IsCampaign(proposed) then ValidKeys(existing, proposed, CAMPAIGN_MUTABLE)
    else existing == proposed
  }

  /** The fields a payload may change: those of the first kind it qualifies as. */
  function Mutable(p: Payload): set<string> {
    if IsSyslog(p) then SYSLOG_MUTABLE else if IsCampaign(p) then CAMPAIGN_MUTABLE else {}
  }

  /** What an update must leave alone: the kind, the key set and the immutable fields. */
  function Identity(p: Payload): (set<string>, map<string, Value>) {
    (p.Keys, map key | key in p && key !in Mutable(p) :: p[key])
  }

  /** The marks of a kind are immutable fields of that kind and of the other. */
  lemma KindSurvives(existing: Payload, proposed: Payload, mutable: set<string>)
    requires mutable <= SYSLOG_MUTABLE + CAMPAIGN_MUTABLE && ValidKeys(existing, proposed, mutable)
    ensures IsSyslog(existing) <==> IsSyslog(proposed)
    ensures IsCampaign(existing) <==> IsCampaign(proposed)
  {
    assert "schema_version" !in mutable && "source_kind" !in mutable && "kind" !in mutable;
    assert forall key :: key in {"schema_version", "source_kind", "kind"} && key in existing ==>
      key in existing.Keys - mutable && existing[key] == proposed[key];
  }

  lemma AcceptedSameKind(existing: Payload, proposed: Payload)
    requires Accepts(existing, proposed)
    ensures IsSyslog(existing) == IsSyslog(proposed) && IsCampaign(existing) == IsCampaign(proposed)
    ensures Mutable(existing) == Mutable(proposed)
  {
    if existing != proposed {
      KindSurvives(existing, proposed, Mutable(existing));
    }
  }

  lemma SameIdentityValidKeys(a: Payload, b: Payload)
    requires Mutable(a) == Mutable(b)
    ensures Identity(a) == Identity(b) <==> ValidKeys(a, b, Mutable(a))
  {
    var x, y := Identity(a).1, Identity(b).1;
    if Identity(a) == Identity(b) {
      forall key | key in a.Keys - Mutable(a) ensures a[key] == b[key] {
        assert key in x && key in b;
        assert x[key] == a[key] && y[key] == b[key];
      }
    }
    if ValidKeys(a, b, Mutable(a)) {
      assert forall key :: key in a <==> key in a.Keys;
      assert x.Keys == y.Keys;
      forall key | key in x ensures x[key] == y[key] {
        assert key in a.Keys - Mutable(a);
      }
      assert x == y;
    }
  }

  lemma SameIdentitySameKind(a: Payload, b: Payload)
    requires Identity(a) == Identity(b)
    ensures IsSyslog(a) == IsSyslog(b) && IsCampaign(a) == IsCampaign(b)
  {
    forall key | key in {"schema_version", "source_kind", "kind"} && key in a ensures key in b && a[key] == b[key] {
      assert key in a.Keys && key in b.Keys;
      assert key !in Mutable(a) && key !in Mutable(b);
      assert key in Identity(a).1 && Identity(a).1[key] == a[key];
      assert key in Identity(b).1 && Identity(b).1[key] == b[key];
    }
    assert a.Keys == b.Keys;
  }

  /** An update is accepted exactly when it keeps the identity; so acceptance is an
      equivalence relation, also for payloads that qualify as both kinds. */
  lemma AcceptsExactlyTheSameIdentity(existing: Payload, proposed: Payload)
    ensures Accepts(existing, proposed) <==> Identity(existing) == Identity(proposed)
  {
    if Accepts(existing, proposed) {
      AcceptedSameKind(existing, proposed);
      if existing != proposed {
        SameIdentityValidKeys(existing, proposed);
      }
    }
    if Identity(existing) == Identity(proposed) {
      SameIdentitySameKind(existing, proposed);
      SameIdentityValidKeys(existing, proposed);
      assert ValidKeys(existing, proposed, {}) ==> existing == proposed;
    }
  }

  /** Says schema version 2 and names its source. */
  ghost predicate SaysSyslog(p: Payload) {
    Number(2) == (if "schema_version" in p then p["schema_version"] else Other(""))
    && (if "source_kind" in p then p["source_kind"] else Other("")).Text?
  }

  ghost predicate SaysCampaign(p: Payload) {
    Text("campaign_phase") == (if "kind" in p then p["kind"] else Other(""))
  }

  /** These payloads have the same fields and agree on all but these. */
  ghost predicate AgreeBut(a: Payload, b: Payload, fields: seq<string>) {
    && (forall key :: key in a <==> key in b)
    && (forall key :: key in a && key in b && key !in fields ==> a[key] == b[key])
  }

  /** In the fields: a syslog event may change when it was received and nothing else, a
      campaign its progress and its references, and any other payload nothing at all. */
  lemma AcceptsInFields(existing: Payload, proposed: Payload)
    ensures SaysSyslog(existing) ==>
      (Accepts(existing, proposed) <==> AgreeBut(existing, proposed, ["received_at"]))
    ensures !SaysSyslog(existing) && SaysCampaign(existing) ==>
      (Accepts(existing, proposed) <==>
         AgreeBut(existing, proposed,
                  ["phase", "outcome", "rollback_deadline", "ticket_id", "incident_id", "event_id"]))
    ensures !SaysSyslog(existing) && !SaysCampaign(existing) ==>
      (Accepts(existing, proposed) <==> AgreeBut(existing, proposed, []))
  {
    if SaysSyslog(existing) {
      AcceptsBut(existing, proposed, ["received_at"]);
    } else if SaysCampaign(existing) {
      AcceptsBut(existing, proposed,
                 ["phase", "outcome", "rollback_deadline", "ticket_id", "incident_id", "event_id"]);
    } else {
      AcceptsBut(existing, proposed, []);
    }
  }

  lemma AcceptsBut(existing: Payload, proposed: Payload, fields: seq<string>)
    requires forall key :: key in fields <==> key in Mutable(existing)
    ensures Accepts(existing, proposed) <==> AgreeBut(existing, proposed, fields)
  {
    AcceptsExactlyTheSameIdentity(existing, proposed);
    if Accepts(existing, proposed) {
      AcceptedSameKind(existing, proposed);
      SameIdentityValidKeys(existing, proposed);
      AgreementIsValidKeys(existing, proposed, fields, Mutable(existing));
    }
    if AgreeBut(existing, proposed, fields) {
      AgreementIsValidKeys(existing, proposed, fields, Mutable(existing));
      KindSurvives(existing, proposed, Mutable(existing));
      SameIdentityValidKeys(existing, proposed);
    }
  }

  lemma AgreementIsValidKeys(a: Payload, b: Payload, fields: seq<string>, mutable: set<string>)
    requires forall key :: key in fields <==> key in mutable
    ensures AgreeBut(a, b, fields) <==> ValidKeys(a, b, mutable)
  {
    assert (forall key :: key in a <==> key in b) <==> a.Keys == b.Keys by {
      assert forall key :: key in a <==> key in a.Keys;
      assert forall key :: key in b <==> key in b.Keys;
    }
    assert forall key :: key in a.Keys - mutable <==> key in a && key !in fields;
  }

  lemma AcceptanceIsAnEquivalence(a: Payload, b: Payload, c: Payload)
    ensures Accepts(a, a)
    ensures Accepts(a, b) ==> Accepts(b, a)
    ensures Accepts(a, b) && Accepts(b, c) ==> Accepts(a, c)
  {
    AcceptsExactlyTheSameIdentity(a, a);
    AcceptsExactlyTheSameIdentity(a, b);
    AcceptsExactlyTheSameIdentity(b, a);
    AcceptsExactlyTheSameIdentity(b, c);
    AcceptsExactlyTheSameIdentity(a, c);
  }

  /** Every payload was accepted as an update of the one before it. */
  predicate Chain(payloads: seq<Payload>) {
    forall i :: 0 < i < |payloads| ==> Accepts(payloads[i - 1], payloads[i])
  }

  /** Over any chain of accepted updates the key set and every immutable field are still
      those of the first payload, and the last would still be accepted for the first. */
  lemma {:induction false} ChainKeepsIdentity(payloads: seq<Payload>)
    requires Chain(payloads) && payloads != []
    ensures Identity(payloads[|payloads| - 1]) == Identity(payloads[0])
    ensures Accepts(payloads[0], payloads[|payloads| - 1])
    ensures payloads[|payloads| - 1].Keys == payloads[0].Keys
  {
    var n := |payloads| - 1;
    if n > 0 {
      ChainKeepsIdentity(payloads[..n]);
      AcceptsExactlyTheSameIdentity(payloads[n - 1], payloads[n]);
    }
    AcceptsExactlyTheSameIdentity(payloads[0], payloads[n]);
  }
}
