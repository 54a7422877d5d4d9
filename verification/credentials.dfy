/**
 PowerVS credentials: a bearer token and the workspace CRN. The region and
 the cloud-instance id are colon-separated fields 5 and 7 (counting from 0)
 of the CRN; the API base URLs are derived from the region, and every
 request carries the same four headers.
 */
module Credentials {
  import opened Errors
  import opened Wrappers
  import opened Strings
  import opened Seqs

  datatype Credentials = Credentials(token: string, crn: string)

  const RegionField: nat := 5
  const InstanceIdField: nat := 7

  /** `crn.split(":")[k]` */
  function CrnField(crn: string, k: nat): (r: Result<string>)
    ensures r.Ok? <==> k <= CountChar(crn, ':')
    ensures r.Ok? ==> ':' !in r.value && r.value == Split(crn, ':')[k]
    ensures r.Err? ==> r.exc == IndexError
  {
    PyIndex(Split(crn, ':'), k)
  }

  /** The `cloud_instance_id` property: the eighth colon field, IndexError
      when the CRN has fewer than seven colons. */
  function CloudInstanceId(c: Credentials): (r: Result<string>)
    ensures r.Ok? <==> CountChar(c.crn, ':') >= InstanceIdField
    ensures r.Ok? ==> ':' !in r.value && r.value == Split(c.crn, ':')[InstanceIdField]
    ensures r.Err? ==> r == Err(IndexError)
  {
    CrnField(c.crn, InstanceIdField)
  }

  /** The `region` property: the sixth colon field, IndexError when the CRN
      has fewer than five colons. */
  function Region(c: Credentials): (r: Result<string>)
    ensures r.Ok? <==> CountChar(c.crn, ':') >= RegionField
    ensures r.Ok? ==> ':' !in r.value && r.value == Split(c.crn, ':')[RegionField]
    ensures r.Err? ==> r == Err(IndexError)
  {
    CrnField(c.crn, RegionField)
  }

  /** The `iaas_url` property. */
  function IaasUrl(c: Credentials): (r: Result<string>)
    ensures r.Ok? <==> Region(c).Ok?
    ensures r.Ok? ==> r.value == "https://" + Region(c).value + ".power-iaas.cloud.ibm.com"
  {
    var region :- Region(c);
    Ok("https://" + region + ".power-iaas.cloud.ibm.com")
  }

  /** The `service_url` property. */
  function ServiceUrl(c: Credentials): (r: Result<string>)
    ensures r.Ok? <==> IaasUrl(c).Ok?
    ensures r.Ok? ==> r.value == IaasUrl(c).value + "/pcloud/v1"
  {
    var base :- IaasUrl(c);
    Ok(base + "/pcloud/v1")
  }

  /** The `broker_url` property. */
  function BrokerUrl(c: Credentials): (r: Result<string>)
    ensures r.Ok? <==> IaasUrl(c).Ok?
    ensures r.Ok? ==> r.value == IaasUrl(c).value + "/broker/v1"
  {
    var base :- IaasUrl(c);
    Ok(base + "/broker/v1")
  }

  /** The `headers` property. */
  function Headers(c: Credentials): (h: map<string, string>)
    ensures h.Keys == {"Accept", "Authorization", "CRN", "Content-Type"}
    ensures h["Authorization"] == "Bearer " + c.token
    ensures h["CRN"] == c.crn
    ensures h["Accept"] == "application/json" && h["Content-Type"] == "application/json"
  {
    map["Accept" := "application/json",
        "Authorization" := "Bearer " + c.token,
        "CRN" := c.crn,
        "Content-Type" := "application/json"]
  }

  /** A CRN assembled from colon-free fields gives back its region and
      instance fields. */
  lemma CrnFieldsRoundTrip(token: string, fields: seq<string>)
    requires |fields| > InstanceIdField
    requires forall i :: 0 <= i < |fields| ==> ':' !in fields[i]
    ensures Region(Credentials(token, Join(fields, ':'))) == Ok(fields[RegionField])
    ensures CloudInstanceId(Credentials(token, Join(fields, ':'))) == Ok(fields[InstanceIdField])
  {
    SplitJoin(fields, ':');
  }

  /** A CRN with fewer than six fields has no region, and so no URLs either. */
  lemma ShortCrnHasNoUrls(c: Credentials)
    requires |Split(c.crn, ':')| <= RegionField
    ensures Region(c) == Err(IndexError)
    ensures ServiceUrl(c).Err? && BrokerUrl(c).Err?
  {
  }
}
