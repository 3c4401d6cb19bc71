/** The per-user application list: the record `add_application` builds,
    the update loop's field merge, and the delete loop's filter. */
module Ledger {
  import opened Wrappers
  import opened Json
  import opened Seqs
  import opened Ids

  /** The record `add_application` stores: the two required fields, the
      optional ones as given (null when absent), status "1" by default. */
  function NewApplication(id: int, req: Record): Record
    requires "jobTitle" in req && "companyName" in req
  {
    map[
      "id" := Int(id),
      "jobTitle" := req["jobTitle"],
      "companyName" := req["companyName"],
      "date" := Get(req, "date"),
      "jobLink" := Get(req, "jobLink"),
      "location" := Get(req, "location"),
      "status" := GetOr(req, "status", Str("1"))]
  }

  lemma NewApplicationFields(id: int, req: Record)
    requires "jobTitle" in req && "companyName" in req
    ensures var a := NewApplication(id, req);
            && HasId(a, id)
            && a["jobTitle"] == req["jobTitle"] && a["companyName"] == req["companyName"]
            && a["jobLink"] == Get(req, "jobLink") && a["status"] == GetOr(req, "status", Str("1"))
            && a["date"] == Get(req, "date") && a["location"] == Get(req, "location")
            && a.Keys == {"id", "jobTitle", "companyName", "date", "jobLink", "location", "status"}
  {
  }

  /** `application["id"]` raises KeyError on a record without "id". */
  predicate AllHaveIdKey(apps: seq<Record>)
  {
    forall i :: 0 <= i < |apps| ==> "id" in apps[i]
  }

  /** The update loop's result: each record with that id has the patch's
      keys written into it; every other record is passed through. */
  function MergeMatching(apps: seq<Record>, id: int, patch: Record): (r: seq<Record>)
    ensures |r| == |apps|
  {
    if |apps| == 0 then []
    else
      var a := apps[|apps| - 1];
      MergeMatching(apps[..|apps| - 1], id, patch) + [if HasId(a, id) then a + patch else a]
  }

  /** What the merge does to each record: one without that id is passed
      through; one with it gains the patch's keys, takes the patch's values
      and keeps its other fields. */
  lemma {:induction false} MergeMatchingEffect(apps: seq<Record>, id: int, patch: Record)
    ensures forall i :: 0 <= i < |apps| && !HasId(apps[i], id) ==> MergeMatching(apps, id, patch)[i] == apps[i]
    ensures forall i :: 0 <= i < |apps| && HasId(apps[i], id) ==>
              && MergeMatching(apps, id, patch)[i].Keys == apps[i].Keys + patch.Keys
              && (forall key :: key in patch ==> MergeMatching(apps, id, patch)[i][key] == patch[key])
              && (forall key :: key in apps[i] && key !in patch ==> MergeMatching(apps, id, patch)[i][key] == apps[i][key])
  {
    if |apps| > 0 {
      var init := apps[..|apps| - 1];
      MergeMatchingEffect(init, id, patch);
      assert forall i :: 0 <= i < |init| ==> apps[i] == init[i];
    }
  }

  /** The delete loop's result: the records without that id, in order. */
  function WithoutId(apps: seq<Record>, id: int): seq<Record>
  {
    Filter(apps, (a: Record) => !HasId(a, id))
  }

  /** The record both loops remember (`app_to_update`, `app_to_delete`): the last one with that id. */
  function LastWithId(apps: seq<Record>, id: int): Option<nat>
  {
    LastIndex(apps, (a: Record) => HasId(a, id))
  }

  /** The update loop one record further. */
  lemma MergeMatchingSnoc(apps: seq<Record>, a: Record, id: int, patch: Record)
    ensures MergeMatching(apps + [a], id, patch) == MergeMatching(apps, id, patch) + [if HasId(a, id) then a + patch else a]
  {
    assert (apps + [a])[..|apps|] == apps;
  }

  /** The record the loops remember, one record further. */
  lemma LastWithIdSnoc(apps: seq<Record>, a: Record, id: int)
    ensures LastWithId(apps + [a], id) == if HasId(a, id) then Some(|apps|) else LastWithId(apps, id)
  {
    assert (apps + [a])[..|apps|] == apps;
  }

  /** The delete loop one record further. */
  lemma WithoutIdSnoc(apps: seq<Record>, a: Record, id: int)
    ensures WithoutId(apps + [a], id) == WithoutId(apps, id) + (if HasId(a, id) then [] else [a])
  {
    assert (apps + [a])[..|apps|] == apps;
  }
}
