/** Id assignment (`get_new_user_id`, `get_new_application_id`): one more
    than the largest id in scope, starting from 0, so 1 for an empty scope. */
module Ids {
  import opened Json
  import opened Records

  /** The value of `new_id + 1` after `new_id = max(new_id, x)` over ids from 0. */
  function NextId(ids: seq<int>): (r: int)
    ensures r >= 1
    ensures forall i :: 0 <= i < |ids| ==> ids[i] < r
    ensures r == 1 || r - 1 in ids
  {
    if |ids| == 0 then 1
    else
      var init := ids[..|ids| - 1];
      var best := NextId(init) - 1;
      var x := ids[|ids| - 1];
      assert ids == init + [x];
      (if x > best then x else best) + 1
  }

  /** The ids of the users, in collection order. */
  function UserIds(users: seq<User>): (ids: seq<int>)
    ensures |ids| == |users|
    ensures forall i :: 0 <= i < |users| ==> ids[i] == users[i].id
  {
    seq(|users|, i requires 0 <= i < |users| => users[i].id)
  }

  /** One more id: the running maximum takes it into account. */
  lemma NextIdSnoc(ids: seq<int>, x: int)
    ensures NextId(ids + [x]) == (if x > NextId(ids) - 1 then x else NextId(ids) - 1) + 1
  {
    assert (ids + [x])[..|ids|] == ids;
  }

  /** The id `get_new_user_id` hands out. */
  function NewUserId(users: seq<User>): (r: int)
    ensures r >= 1
    ensures forall i :: 0 <= i < |users| ==> users[i].id < r
    ensures |users| == 0 ==> r == 1
    ensures r == 1 || exists i :: 0 <= i < |users| && users[i].id == r - 1
  {
    NextId(UserIds(users))
  }

  /** `application["id"] == id`: the record has an integer id equal to id. */
  predicate HasId(a: Record, id: int)
  {
    "id" in a && a["id"] == Int(id)
  }

  /** Every record carries an integer "id", so `max` over them is defined. */
  predicate IntIds(apps: seq<Record>)
  {
    forall i :: 0 <= i < |apps| ==> "id" in apps[i] && apps[i]["id"].Int?
  }

  function AppIds(apps: seq<Record>): (ids: seq<int>)
    requires IntIds(apps)
    ensures |ids| == |apps|
    ensures forall i :: 0 <= i < |apps| ==> HasId(apps[i], ids[i])
  {
    seq(|apps|, i requires 0 <= i < |apps| => apps[i]["id"].n)
  }

  lemma AppIdsSnoc(apps: seq<Record>, a: Record)
    requires IntIds(apps) && "id" in a && a["id"].Int?
    ensures IntIds(apps + [a])
    ensures AppIds(apps + [a]) == AppIds(apps) + [a["id"].n]
  {
    assert forall i :: 0 <= i < |apps| ==> (apps + [a])[i] == apps[i];
  }

  /** The id `get_new_application_id` hands out; a record without an integer
      id makes `max` raise (KeyError or TypeError), here InternalError. */
  function NewApplicationId(apps: seq<Record>): (r: Result<int>)
    ensures r.Ok? <==> |apps| == 0 || IntIds(apps)
    ensures r.Ok? ==> r.value >= 1 && forall i :: 0 <= i < |apps| ==> !HasId(apps[i], r.value)
    ensures r.Ok? ==> forall i, n :: 0 <= i < |apps| && HasId(apps[i], n) ==> n < r.value
    ensures r.Ok? ==> r.value == 1 || exists i :: 0 <= i < |apps| && HasId(apps[i], r.value - 1)
    ensures |apps| == 0 ==> r == Ok(1)
    ensures r.Err? ==> r.error == InternalError
  {
    if |apps| == 0 then Ok(1)
    else if !IntIds(apps) then Err(InternalError)
    else Ok(NextId(AppIds(apps)))
  }
}
