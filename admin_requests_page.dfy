/** The admin-requests page: the effect that filters the fetched users by role and search
    term and sorts them, the sort toggle, the selection check boxes, and the local updates
    made after a verification request succeeds. */
module AdminRequestsPage {
  import opened Common
  import opened ListViews

  datatype AdminUser = AdminUser(
    id: string, firstName: string, lastName: string, email: string, username: string,
    isVerified: bool, role: string, createdAt: string, updatedAt: string)

  /** The role filter the page starts with. */
  const InitialRoleFilter := "viewer"

  /** The lower-cased term in the lower-cased first name, last name, email or username. */
  predicate SearchHits(u: AdminUser, term: string)
  {
    Includes(ToLower(u.firstName), term) || Includes(ToLower(u.lastName), term) ||
    Includes(ToLower(u.email), term) || Includes(ToLower(u.username), term)
  }

  /** A user the page lists: of the chosen role unless "all", and matching a non-empty
      search term. */
  predicate Shown(u: AdminUser, roleFilter: string, searchTerm: string)
  {
    (roleFilter == "all" || u.role == roleFilter) && (searchTerm == "" || SearchHits(u, ToLower(searchTerm)))
  }

  /** The users shown, in the order they were fetched. */
  function Visible(users: seq<AdminUser>, roleFilter: string, searchTerm: string): (r: seq<AdminUser>)
    ensures forall k :: 0 <= k < |r| ==> r[k] in users && Shown(r[k], roleFilter, searchTerm)
    ensures forall k :: 0 <= k < |users| && Shown(users[k], roleFilter, searchTerm) ==> users[k] in r
  {
    if users == [] then []
    else if Shown(users[0], roleFilter, searchTerm) then [users[0]] + Visible(users[1..], roleFilter, searchTerm)
    else Visible(users[1..], roleFilter, searchTerm)
  }

  function RoleIs(role: string): AdminUser -> bool
  {
    (u: AdminUser) => u.role == role
  }

  function HitsTerm(term: string): AdminUser -> bool
  {
    (u: AdminUser) => SearchHits(u, term)
  }

  /** `a[key]` of a string-valued key; a key the user does not carry reads as "", which
      compares equal to itself, as two `undefined` values do. */
  function FieldText(u: AdminUser, key: string): string
  {
    match key
    case "_id" => u.id
    case "firstName" => u.firstName
    case "lastName" => u.lastName
    case "email" => u.email
    case "username" => u.username
    case "role" => u.role
    case "createdAt" => u.createdAt
    case "updatedAt" => u.updatedAt
    case _ => ""
  }

  function FieldOf(key: string): AdminUser -> string
  {
    (u: AdminUser) => FieldText(u, key)
  }

  /** `false < true` in JavaScript's relational comparison. */
  function VerifiedRank(u: AdminUser): real
  {
    if u.isVerified then 1.0 else 0.0
  }

  /** The comparator `a[key] < b[key] ? -1 : a[key] > b[key] ? 1 : 0`, flipped for
      descending order. */
  function Comparator(sort: SortState): (AdminUser, AdminUser) -> bool
  {
    if sort.field == "isVerified" then ByReal(VerifiedRank, sort.dir) else ByStr(FieldOf(sort.field), sort.dir)
  }

  lemma ComparatorSorts(s: seq<AdminUser>, sort: SortState)
    ensures SortedBy(SortBy(s, Comparator(sort)), Comparator(sort))
  {
    if sort.field == "isVerified" {
      SortByReal(s, VerifiedRank, sort.dir);
    } else {
      SortByStr(s, FieldOf(sort.field), sort.dir);
    }
  }

  /** The role filter step is the role half of `Shown`. */
  lemma {:induction false} RoleStep(users: seq<AdminUser>, role: string)
    requires role != "all"
    ensures Filter(users, RoleIs(role)) == Visible(users, role, "")
  {
    if users != [] {
      RoleStep(users[1..], role);
    }
  }

  /** The search step, on what the role step kept, gives the users shown. */
  lemma {:induction false} SearchStep(users: seq<AdminUser>, role: string, searchTerm: string)
    requires searchTerm != ""
    ensures Filter(Visible(users, role, ""), HitsTerm(ToLower(searchTerm))) == Visible(users, role, searchTerm)
  {
    if users != [] {
      SearchStep(users[1..], role, searchTerm);
      var rest := Visible(users[1..], role, "");
      if Shown(users[0], role, "") {
        assert ([users[0]] + rest)[1..] == rest;
      }
    }
  }

  lemma {:induction false} AllShown(users: seq<AdminUser>)
    ensures Visible(users, "all", "") == users
  {
    if users != [] {
      AllShown(users[1..]);
      assert [users[0]] + users[1..] == users;
    }
  }

  /** The filter effect, reassigning its local `result` step by step. */
  method FilterUsers(users: seq<AdminUser>, roleFilter: string, searchTerm: string, sortConfig: Option<SortState>)
    returns (result: seq<AdminUser>)
    ensures multiset(result) == multiset(Visible(users, roleFilter, searchTerm))
    ensures sortConfig.None? ==> result == Visible(users, roleFilter, searchTerm)
    ensures sortConfig.Some? ==> SortedBy(result, Comparator(sortConfig.value))
  {
    result := users;
    if roleFilter != "all" {
      RoleStep(users, roleFilter);
      result := Filter(result, RoleIs(roleFilter));
    } else {
      AllShown(users);
    }
    assert result == Visible(users, roleFilter, "");
    if searchTerm != "" {
      SearchStep(users, roleFilter, searchTerm);
      result := Filter(result, HitsTerm(ToLower(searchTerm)));
    }
    assert result == Visible(users, roleFilter, searchTerm);
    if sortConfig.Some? {
      ComparatorSorts(result, sortConfig.value);
      result := SortBy(result, Comparator(sortConfig.value));
    }
  }

  /** requestSort: the same key while ascending turns descending; anything else, including
      no sort yet, sorts ascending. */
  function RequestSort(config: Option<SortState>, key: string): (r: SortState)
    ensures r.field == key
    ensures r.dir == Desc <==> config.Some? && config.value.field == key && config.value.dir == Asc
  {
    if config.Some? then ToggleSort(config.value, key) else SortState(key, Asc)
  }

  // ------------------------------------------------------------------
  // Selection.
  // ------------------------------------------------------------------

  /** toggleSelectUser: a selected id is dropped, an unselected one appended. */
  function ToggleSelectUser(selected: seq<string>, userId: string): (r: seq<string>)
    ensures forall x :: x in r <==> (x in selected) != (x == userId)
    ensures userId !in selected ==> r == selected + [userId]
  {
    if userId in selected then Filter(selected, (id: string) => id != userId) else selected + [userId]
  }

  /** Toggling twice selects the same users; starting from an unselected id it gives back
      the very same list. */
  lemma ToggleTwice(selected: seq<string>, userId: string)
    ensures forall x :: x in ToggleSelectUser(ToggleSelectUser(selected, userId), userId) <==> x in selected
    ensures userId !in selected ==> ToggleSelectUser(ToggleSelectUser(selected, userId), userId) == selected
  {
    if userId !in selected {
      var added := selected + [userId];
      FilterAll(selected, (id: string) => id != userId);
      FilterAppendDrop(selected, userId);
    }
  }

  lemma {:induction false} FilterAppendDrop(s: seq<string>, x: string)
    ensures Filter(s + [x], (id: string) => id != x) == Filter(s, (id: string) => id != x)
  {
    if s == [] {
      assert [] + [x] == [x];
      assert [x][1..] == [];
    } else {
      FilterAppendDrop(s[1..], x);
      assert (s + [x])[1..] == s[1..] + [x];
    }
  }

  function IdsOf(users: seq<AdminUser>): (r: seq<string>)
    ensures |r| == |users| && forall k :: 0 <= k < |users| ==> r[k] == users[k].id
  {
    seq(|users|, k requires 0 <= k < |users| => users[k].id)
  }

  /** toggleSelectAll: a selection as long as the listed users is cleared, anything else
      becomes the ids of every listed user. */
  function ToggleSelectAll(selected: seq<string>, filtered: seq<AdminUser>): (r: seq<string>)
    ensures |selected| == |filtered| ==> r == []
    ensures |selected| != |filtered| ==> r == IdsOf(filtered)
  {
    if |selected| == |filtered| then [] else IdsOf(filtered)
  }

  /** The check is on lengths only: selecting all and toggling again clears the selection. */
  lemma SelectAllThenClear(selected: seq<string>, filtered: seq<AdminUser>)
    requires |selected| != |filtered|
    ensures ToggleSelectAll(ToggleSelectAll(selected, filtered), filtered) == []
  {
  }

  // ------------------------------------------------------------------
  // Verification updates, made when the request succeeded.
  // ------------------------------------------------------------------

  /** handleVerificationChange: on success the users with that id take the new flag. */
  function VerifyOne(users: seq<AdminUser>, userId: string, newValue: bool, ok: bool): (r: seq<AdminUser>)
    ensures |r| == |users|
    ensures forall k :: 0 <= k < |r| ==>
      r[k] == if ok && users[k].id == userId then users[k].(isVerified := newValue) else users[k]
  {
    if !ok then users
    else seq(|users|, k requires 0 <= k < |users| =>
                        if users[k].id == userId then users[k].(isVerified := newValue) else users[k])
  }

  /** handleBulkVerification: an empty selection sends nothing; a successful request sets the
      flag of exactly the selected users and clears the selection; a failed one changes
      nothing. */
  function VerifyBulk(users: seq<AdminUser>, selected: seq<string>, verify: bool, ok: bool): (r: (seq<AdminUser>, seq<string>))
    ensures selected == [] || !ok ==> r == (users, selected)
    ensures selected != [] && ok ==> r.1 == [] && |r.0| == |users|
    ensures selected != [] && ok ==> forall k :: 0 <= k < |users| ==>
                                       r.0[k] == if users[k].id in selected then users[k].(isVerified := verify) else users[k]
  {
    if selected == [] || !ok then (users, selected)
    else (seq(|users|, k requires 0 <= k < |users| =>
            if users[k].id in selected then users[k].(isVerified := verify) else users[k]), [])
  }

  /** Repeating a successful verification changes nothing more. */
  lemma VerifyIdempotent(users: seq<AdminUser>, userId: string, newValue: bool)
    ensures VerifyOne(VerifyOne(users, userId, newValue, true), userId, newValue, true) ==
      VerifyOne(users, userId, newValue, true)
  {
  }

  /** Verifying the listed ids one after the other, each with a successful request. */
  function VerifyEach(users: seq<AdminUser>, ids: seq<string>, verify: bool): seq<AdminUser>
    decreases |ids|
  {
    if ids == [] then users else VerifyEach(VerifyOne(users, ids[0], verify, true), ids[1..], verify)
  }

  /** After verifying each listed id in turn, a user has the flag exactly when its id is
      listed, and is otherwise untouched. */
  lemma {:induction false} VerifyEachFlags(users: seq<AdminUser>, ids: seq<string>, verify: bool)
    ensures var r := VerifyEach(users, ids, verify);
      |r| == |users| &&
      forall k :: 0 <= k < |users| ==>
        r[k] == if users[k].id in ids then users[k].(isVerified := verify) else users[k]
    decreases |ids|
  {
    if ids != [] {
      var once := VerifyOne(users, ids[0], verify, true);
      VerifyEachFlags(once, ids[1..], verify);
      forall k | 0 <= k < |users|
        ensures VerifyEach(users, ids, verify)[k] ==
          if users[k].id in ids then users[k].(isVerified := verify) else users[k]
      {
        assert once[k].id == users[k].id;
        assert users[k].id in ids <==> users[k].id == ids[0] || users[k].id in ids[1..] by {
          assert ids == [ids[0]] + ids[1..];
        }
      }
    }
  }

  /** A successful bulk verification of a non-empty selection gives the users that one
      successful single verification per selected id would; only the selection differs,
      being cleared. */
  lemma BulkIsPerUser(users: seq<AdminUser>, selected: seq<string>, verify: bool)
    requires selected != []
    ensures VerifyBulk(users, selected, verify, true).0 == VerifyEach(users, selected, verify)
    ensures VerifyBulk(users, selected, verify, true).1 == []
  {
    VerifyEachFlags(users, selected, verify);
  }
}
