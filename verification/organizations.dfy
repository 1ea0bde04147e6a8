/**
 The persistence-layer organization service: register-or-get by domain,
 metadata updates that keep whatever the caller leaves null, the program
 counter, and deactivation.
 */
module Organizations {
  import opened Wrappers
  import opened Time
  import opened Store
  import opened JavaInt

  /* The organization row. Confidence is in hundredths; the program counter is a Java Integer. */
  datatype Organization = Organization(
    organizationId: Option<Uuid>,
    name: Option<string>,
    domain: Option<string>,
    mission: Option<string>,
    geographicFocus: Option<string>,
    homepageUrl: Option<string>,
    discoverySessionId: Option<Uuid>,
    discoveredAt: Option<Instant>,
    lastRefreshedAt: Option<Instant>,
    isActive: Option<bool>,
    isValidFundingSource: Option<bool>,
    organizationConfidence: Option<int>,
    programCount: Option<int>)

  type OrganizationTable = map<Uuid, Organization>

  function NotFound(id: Uuid): Exception {
    IllegalArgument("Organization not found: " + Digits(id))
  }

  /* findByDomain. */
  function FindByDomain(t: OrganizationTable, domain: Option<string>): (r: Option<Uuid>)
    ensures r.Some? ==> r.value in t && t[r.value].domain == domain
    ensures r.None? ==> forall id :: id in t ==> t[id].domain != domain
  {
    FindWhere(t, (o: Organization) => o.domain == domain)
  }

  /* organizationExistsForDomain: some stored organization has the domain. */
  function OrganizationExistsForDomain(t: OrganizationTable, domain: Option<string>): (r: bool)
    ensures r <==> exists id :: id in t && t[id].domain == domain
  {
    FindByDomain(t, domain).Some?
  }

  lemma FindByDomainAfterSave(t: OrganizationTable, domain: Option<string>, id: Uuid, o: Organization)
    requires o.domain == domain
    requires FindByDomain(t, domain) == Some(id) || FindByDomain(t, domain).None?
    ensures FindByDomain(t[id := o], domain) == Some(id)
  {
    assert id in t[id := o] && t[id := o][id].domain == domain;
  }

  /* registerOrganization: the stored organization for the domain, else a new active one saved under `freshId`. */
  function RegisterOrganization(t: OrganizationTable, name: Option<string>, domain: Option<string>,
                                sessionId: Option<Uuid>, now: Instant, freshId: Uuid): (r: (OrganizationTable, Organization))
    ensures FindByDomain(t, domain).Some? ==> r.0 == t && r.1 == t[FindByDomain(t, domain).value]
    ensures FindByDomain(t, domain).None? ==>
      && r.0 == t[freshId := r.1]
      && r.1 == Organization(Some(freshId), name, domain, None, None, None, sessionId, Some(now),
                             None, Some(true), None, None, None)
    ensures r.1.domain == domain
  {
    match FindByDomain(t, domain)
    case Some(id) => (t, t[id])
    case None =>
      var saved := Organization(Some(freshId), name, domain, None, None, None, sessionId, Some(now),
                                None, Some(true), None, None, None);
      (t[freshId := saved], saved)
  }

  /* Registering the same domain again, under any name or session, returns the first registration and saves nothing. */
  lemma RegisterOrganizationIdempotent(t: OrganizationTable, domain: Option<string>, n1: Option<string>, n2: Option<string>,
                                       s1: Option<Uuid>, s2: Option<Uuid>, now1: Instant, now2: Instant, id1: Uuid, id2: Uuid)
    ensures var once := RegisterOrganization(t, n1, domain, s1, now1, id1);
      RegisterOrganization(once.0, n2, domain, s2, now2, id2) == once
  {
    var once := RegisterOrganization(t, n1, domain, s1, now1, id1);
    if FindByDomain(t, domain).None? {
      FindByDomainAfterSave(t, domain, id1, once.1);
    }
  }

  /* A non-null argument replaces the field; a null one keeps the stored value. */
  function Overwrite(stored: Option<string>, given: Option<string>): Option<string> {
    if given.Some? then given else stored
  }

  /* updateMetadata: only the non-null fields change, and the refresh time is stamped. */
  function UpdateMetadata(t: OrganizationTable, id: Uuid, mission: Option<string>, geographicFocus: Option<string>,
                          homepageUrl: Option<string>, now: Instant): (r: Result<(OrganizationTable, Organization)>)
    ensures r.Fail? <==> id !in t
    ensures r.Fail? ==> r.error == NotFound(id)
    ensures r.Ok? ==> OnlyRecordChanged(t, r.value.0, id) && r.value.1 == r.value.0[id]
    ensures r.Ok? ==>
      var o := r.value.1;
      && (mission.Some? ==> o.mission == mission) && (mission.None? ==> o.mission == t[id].mission)
      && (geographicFocus.Some? ==> o.geographicFocus == geographicFocus)
      && (geographicFocus.None? ==> o.geographicFocus == t[id].geographicFocus)
      && (homepageUrl.Some? ==> o.homepageUrl == homepageUrl) && (homepageUrl.None? ==> o.homepageUrl == t[id].homepageUrl)
      && o.lastRefreshedAt == Some(now)
      && o.(mission := t[id].mission, geographicFocus := t[id].geographicFocus, homepageUrl := t[id].homepageUrl,
            lastRefreshedAt := t[id].lastRefreshedAt) == t[id]
  {
    if id !in t then Fail(NotFound(id))
    else
      var o := Refreshed(t[id], mission, geographicFocus, homepageUrl, now);
      Ok((t[id := o], o))
  }

  /* The record updateMetadata saves. */
  function Refreshed(o: Organization, mission: Option<string>, geographicFocus: Option<string>,
                     homepageUrl: Option<string>, now: Instant): Organization {
    o.(mission := Overwrite(o.mission, mission),
       geographicFocus := Overwrite(o.geographicFocus, geographicFocus),
       homepageUrl := Overwrite(o.homepageUrl, homepageUrl),
       lastRefreshedAt := Some(now))
  }

  /*
   Two metadata updates in a row act as one update whose arguments are the
   second call's, falling back to the first call's where the second passed
   null, stamped at the second time.
   */
  lemma UpdateMetadataComposes(t: OrganizationTable, id: Uuid, m1: Option<string>, g1: Option<string>, h1: Option<string>,
                               m2: Option<string>, g2: Option<string>, h2: Option<string>, now1: Instant, now2: Instant)
    requires id in t
    ensures UpdateMetadata(t, id, m1, g1, h1, now1).Ok?
    ensures UpdateMetadata(UpdateMetadata(t, id, m1, g1, h1, now1).value.0, id, m2, g2, h2, now2) ==
      UpdateMetadata(t, id, Overwrite(m1, m2), Overwrite(g1, g2), Overwrite(h1, h2), now2)
  {
    var o1 := Refreshed(t[id], m1, g1, h1, now1);
    var o2 := Refreshed(o1, m2, g2, h2, now2);
    assert o2 == Refreshed(t[id], Overwrite(m1, m2), Overwrite(g1, g2), Overwrite(h1, h2), now2);
    assert t[id := o1][id := o2] == t[id := o2];
  }

  /* markAsValidFundingSource: flags the organization valid with the given confidence. */
  function MarkAsValidFundingSource(t: OrganizationTable, id: Uuid, confidence: Option<int>, now: Instant): (r: Result<(OrganizationTable, Organization)>)
    ensures r.Fail? <==> id !in t
    ensures r.Fail? ==> r.error == NotFound(id)
    ensures r.Ok? ==>
      && OnlyRecordChanged(t, r.value.0, id) && r.value.1 == r.value.0[id]
      && r.value.1.isValidFundingSource == Some(true) && r.value.1.organizationConfidence == confidence
      && r.value.1.lastRefreshedAt == Some(now)
      && r.value.1.(isValidFundingSource := t[id].isValidFundingSource, organizationConfidence := t[id].organizationConfidence,
                    lastRefreshedAt := t[id].lastRefreshedAt) == t[id]
  {
    if id !in t then Fail(NotFound(id))
    else
      var o := t[id].(isValidFundingSource := Some(true), organizationConfidence := confidence, lastRefreshedAt := Some(now));
      Ok((t[id := o], o))
  }

  /* incrementProgramCount: a null counter counts as 0; the Integer addition wraps at the int range. */
  function IncrementProgramCount(t: OrganizationTable, id: Uuid): (r: Result<OrganizationTable>)
    ensures r.Fail? <==> id !in t
    ensures r.Fail? ==> r.error == NotFound(id)
    ensures r.Ok? ==> OnlyRecordChanged(t, r.value, id)
    ensures r.Ok? ==> r.value[id].programCount.Some? && IsInt32(r.value[id].programCount.value)
    ensures r.Ok? && t[id].programCount.None? ==> r.value[id].programCount == Some(1)
    ensures r.Ok? && t[id].programCount.Some? && IsInt32(t[id].programCount.value) && t[id].programCount.value < IntMax ==>
      r.value[id].programCount == Some(t[id].programCount.value + 1)
    ensures r.Ok? ==> r.value[id].(programCount := t[id].programCount) == t[id]
  {
    if id !in t then Fail(NotFound(id))
    else
      var current := t[id].programCount.GetOr(0);
      Ok(t[id := t[id].(programCount := Some(Wrap32(current + 1)))])
  }

  /* The table after k increments of one organization's counter. */
  function IncrementTimes(t: OrganizationTable, id: Uuid, k: nat): (r: OrganizationTable)
    requires id in t
    ensures id in r
  {
    if k == 0 then t
    else
      var before := IncrementTimes(t, id, k - 1);
      IncrementProgramCount(before, id).value
  }

  /* Starting from a null counter, k increments (within the int range) leave the counter at k. */
  lemma {:induction false} IncrementsCountFromNull(t: OrganizationTable, id: Uuid, k: nat)
    requires id in t && t[id].programCount.None? && 0 < k <= IntMax
    ensures IncrementTimes(t, id, k)[id].programCount == Some(k)
  {
    if k > 1 {
      IncrementsCountFromNull(t, id, k - 1);
    }
  }

  /* Past the int range the counter wraps: one more increment of the largest int gives the smallest. */
  lemma IncrementWrapsAtIntMax(t: OrganizationTable, id: Uuid)
    requires id in t && t[id].programCount == Some(IntMax)
    ensures IncrementProgramCount(t, id).Ok? && IncrementProgramCount(t, id).value[id].programCount == Some(IntMin)
  {
    assert Wrap32(IntMax + 1) == IntMin;
  }

  /* deactivate: only isActive changes. */
  function Deactivate(t: OrganizationTable, id: Uuid): (r: Result<(OrganizationTable, Organization)>)
    ensures r.Fail? <==> id !in t
    ensures r.Fail? ==> r.error == NotFound(id)
    ensures r.Ok? ==>
      && OnlyRecordChanged(t, r.value.0, id) && r.value.1 == r.value.0[id]
      && r.value.1 == t[id].(isActive := Some(false))
  {
    if id !in t then Fail(NotFound(id))
    else
      var o := t[id].(isActive := Some(false));
      Ok((t[id := o], o))
  }

  /* Deactivating does not touch the domain, so the organization is still the one registration finds. */
  lemma DeactivatedStillRegistered(t: OrganizationTable, id: Uuid, name: Option<string>, sessionId: Option<Uuid>,
                                   now: Instant, freshId: Uuid)
    requires id in t && FindByDomain(t, t[id].domain) == Some(id)
    ensures Deactivate(t, id).Ok?
    ensures var d := Deactivate(t, id).value;
      RegisterOrganization(d.0, name, t[id].domain, sessionId, now, freshId) == (d.0, d.1)
  {
    var d := Deactivate(t, id).value;
    FindByDomainAfterSave(t, t[id].domain, id, d.1);
  }
}
