/**
 * The all-users list kept in browser storage, as the catalog, partner and
 * settings screens write it back: find the signed-in user's index by id,
 * and when it is found overwrite that slot with the updated profile
 * (components/ProductStock.tsx, components/PartnerContact.tsx,
 * components/Settings.tsx). Parsing and saving the list are not modelled;
 * the parsed list is an array the write updates in place.
 */
module UserDirectory {
  import opened Types
  import opened Folds

  /** What a guarded remove handler ends in: refused to a moderator, nothing done, or a new profile saved. */
  datatype RemoveOutcome = Denied | Unchanged | Saved(user: UserProfile)

  function HasId(id: string): UserProfile -> bool {
    (u: UserProfile) => u.id == id
  }

  /** `allUsers.findIndex(u => u.id === id)`: the first index holding the id, or -1. */
  function IndexOfUser(users: seq<UserProfile>, id: string): (k: int)
    ensures -1 <= k < |users|
    ensures k >= 0 ==> users[k].id == id && forall j :: 0 <= j < k ==> users[j].id != id
    ensures k == -1 <==> forall j :: 0 <= j < |users| ==> users[j].id != id
  {
    FindIndex(users, HasId(id))
  }

  /**
   * The write-back: the first profile with the id is replaced by `updated`;
   * with no such profile the list is left as it was.
   */
  function ReplaceUser(users: seq<UserProfile>, id: string, updated: UserProfile): (r: seq<UserProfile>)
    ensures |r| == |users|
    ensures (forall j :: 0 <= j < |users| ==> users[j].id != id) ==> r == users
    ensures forall j :: 0 <= j < |users| && users[j].id != id ==> r[j] == users[j]
    ensures (exists j :: 0 <= j < |users| && users[j].id == id) ==> updated in r
    ensures IndexOfUser(users, id) >= 0 ==> r[IndexOfUser(users, id)] == updated
    ensures forall j :: 0 <= j < |users| && j != IndexOfUser(users, id) ==> r[j] == users[j]
  {
    var k := IndexOfUser(users, id);
    if k == -1 then users
    else
      var r := users[k := updated];
      assert r[k] == updated;
      r
  }

  /**
   * After the write, looking the id up again finds the updated profile at the
   * same index, so writing the same profile twice is writing it once.
   */
  lemma ReplaceThenFind(users: seq<UserProfile>, updated: UserProfile)
    ensures var r := ReplaceUser(users, updated.id, updated);
            && IndexOfUser(r, updated.id) == IndexOfUser(users, updated.id)
            && (IndexOfUser(r, updated.id) >= 0 ==> r[IndexOfUser(r, updated.id)] == updated)
            && ReplaceUser(r, updated.id, updated) == r
  {
    var id := updated.id;
    var k := IndexOfUser(users, id);
    var r := ReplaceUser(users, id, updated);
    FindIndexUnique(r, HasId(id), k);
  }

  /** The `findIndex` loop over the parsed array. */
  method FindUserIndex(allUsers: array<UserProfile>, id: string) returns (k: int)
    ensures k == IndexOfUser(allUsers[..], id)
  {
    var i := 0;
    while i < allUsers.Length
      invariant 0 <= i <= allUsers.Length
      invariant forall j :: 0 <= j < i ==> allUsers[j].id != id
    {
      if allUsers[i].id == id {
        FindIndexUnique(allUsers[..], HasId(id), i);
        return i;
      }
      i := i + 1;
    }
    FindIndexUnique(allUsers[..], HasId(id), -1);
    return -1;
  }

  /** `if (userIdx !== -1) allUsers[userIdx] = updatedUser`. */
  method WriteBack(allUsers: array<UserProfile>, id: string, updated: UserProfile)
    modifies allUsers
    ensures allUsers[..] == ReplaceUser(old(allUsers[..]), id, updated)
  {
    var k := FindUserIndex(allUsers, id);
    if k != -1 {
      allUsers[k] := updated;
    }
  }
}
