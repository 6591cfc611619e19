/** src/pages/AdminUsersPage.tsx, the user-role console: which roles the
    signed-in actor may grant, how API records become rows, the search box,
    the per-user role drafts and the load and save round trips. The HTTP
    calls are replaced by their outcomes, passed in as parameters. */
module AdminUsers {
  import opened Wrappers
  import opened Strings
  import opened Seqs
  import opened StringOrder
  import opened Sessions
  import opened SearchParams
  import opened UsersApi

  /** The roles an owner may grant, and the ones an admin may grant. */
  const OWNER_MANAGED_ROLES: seq<string> := ["admin", "seller", "tester"]
  const ADMIN_MANAGED_ROLES: seq<string> := ["seller"]

  datatype Status = Active | Disabled

  datatype UserRecord = UserRecord(id: string, name: string, email: string, roles: seq<string>, status: Status)

  /** A user as the API sends it; `roles` is `None` when the field is not
      an array. */
  datatype UsersApiRecord = UsersApiRecord(
    id: string, email: string, displayName: Option<string>, roles: Option<seq<string>>, isActive: int)

  /** The form of a role list after `normalizeRoles`. */
  predicate IsCanonical(roles: seq<string>)
  {
    StrictlySorted(roles) && forall i :: 0 <= i < |roles| ==> IsCleanEntry(roles[i], true)
  }

  /** `normalizeRoles`: the same trim, lowercase, drop-blank, dedupe and
      sort chain as the users API's `normalizeCsvValues`. */
  function NormalizeRoles(roles: seq<string>): (r: seq<string>)
    ensures IsCanonical(r)
    ensures forall x :: x in r <==> x in CleanSet(roles, true)
  {
    NormalizeCsvValues(roles)
  }

  /** `equalsRoleLists`: element-wise comparison of the two normalised
      lists, which holds exactly when the lists name the same roles up to
      blank entries, surrounding spaces, case, order and repetition. */
  function EqualsRoleLists(a: seq<string>, b: seq<string>): (r: bool)
    ensures r <==> NormalizeRoles(a) == NormalizeRoles(b)
    ensures r <==> CleanSet(a, true) == CleanSet(b, true)
  {
    var left := NormalizeRoles(a);
    var right := NormalizeRoles(b);
    SameNormalForm(a, b);
    if |left| != |right| then false
    else forall i :: 0 <= i < |left| ==> left[i] == right[i]
  }

  lemma SameNormalForm(a: seq<string>, b: seq<string>)
    ensures NormalizeRoles(a) == NormalizeRoles(b) <==> CleanSet(a, true) == CleanSet(b, true)
  {
    var left := NormalizeRoles(a);
    var right := NormalizeRoles(b);
    if CleanSet(a, true) == CleanSet(b, true) {
      StrictlySortedUnique(left, right);
    }
  }

  /** Lists holding the same entries compare equal, whatever their order. */
  lemma EqualsRoleListsIgnoresOrder(a: seq<string>, b: seq<string>)
    requires forall x :: x in a <==> x in b
    ensures EqualsRoleLists(a, b)
  {
    forall x ensures x in CleanSet(a, true) <==> x in CleanSet(b, true) {
      if x in CleanSet(a, true) {
        var v :| v in a && Trim(v) != [] && Clean(v, true) == x;
        assert v in b;
      }
      if x in CleanSet(b, true) {
        var v :| v in b && Trim(v) != [] && Clean(v, true) == x;
        assert v in a;
      }
    }
  }

  predicate IsAuthenticated(session: Option<Session>)
  {
    session.Some? && session.value.authenticated
  }

  predicate IsOwner(session: Option<Session>) { HasRole(session, "owner") }

  predicate IsAdmin(session: Option<Session>) { HasRole(session, "admin") }

  predicate CanManageUsers(session: Option<Session>) { IsOwner(session) || IsAdmin(session) }

  /** `allowedManagedRoles`: the owner list for an owner, the admin list
      for an admin, nothing otherwise. "owner" is never grantable, and only
      an owner may grant "admin" or "tester". */
  function AllowedManagedRoles(session: Option<Session>): (r: seq<string>)
    ensures forall x :: x in r ==> x in OWNER_MANAGED_ROLES
    ensures "owner" !in r
    ensures r != [] <==> CanManageUsers(session)
    ensures IsOwner(session) ==> forall x :: x in OWNER_MANAGED_ROLES ==> x in r
    ensures !IsOwner(session) ==> "admin" !in r && "tester" !in r
    ensures StrictlySorted(r)
  {
    if IsOwner(session) then OWNER_MANAGED_ROLES
    else if IsAdmin(session) then ADMIN_MANAGED_ROLES
    else []
  }

  /** `mapApiUser`: the display name when it is not blank (kept untrimmed),
      else the email; the roles normalised; active exactly when
      `is_active` is 1. */
  function MapApiUser(u: UsersApiRecord): (r: UserRecord)
    ensures r.id == u.id && r.email == u.email
    ensures u.displayName.Some? && Trim(u.displayName.value) != [] ==> r.name == u.displayName.value
    ensures u.displayName.None? || Trim(u.displayName.value) == [] ==> r.name == u.email
    ensures IsCanonical(r.roles)
    ensures forall x :: x in r.roles <==> x in CleanSet(if u.roles.Some? then u.roles.value else [], true)
    ensures r.status == Active <==> u.isActive == 1
  {
    UserRecord(
      u.id,
      if u.displayName.Some? && Trim(u.displayName.value) != [] then u.displayName.value else u.email,
      u.email,
      NormalizeRoles(if u.roles.Some? then u.roles.value else []),
      if u.isActive == 1 then Active else Disabled)
  }

  /** `getManagedRolesForUser`: the user's roles the actor may grant, in
      the user's order. */
  function ManagedRolesFor(user: UserRecord, allowed: seq<string>): (r: seq<string>)
    ensures forall x :: x in r <==> x in user.roles && x in allowed
    ensures IsSubseq(r, user.roles)
    ensures StrictlySorted(user.roles) ==> StrictlySorted(r)
  {
    var r := Filter(user.roles, role => role in allowed);
    FilterIsSubseq(user.roles, role => role in allowed);
    if StrictlySorted(user.roles) then
      SubseqStrictlySorted(r, user.roles);
      r
    else r
  }

  /** One row matches the search box when its name, email or space-joined
      roles, lowercased, contain the lowercased query. */
  predicate MatchesQuery(user: UserRecord, needle: string)
  {
    Contains(ToLower(user.name), needle)
    || Contains(ToLower(user.email), needle)
    || Contains(ToLower(Join(user.roles, " ")), needle)
  }

  /** `filteredUsers`: every user for an empty query, else the matching
      users in their order. */
  function FilteredUsers(users: seq<UserRecord>, query: string): (r: seq<UserRecord>)
    ensures query == [] ==> r == users
    ensures IsSubseq(r, users)
    ensures query != [] ==> forall i :: 0 <= i < |r| ==> MatchesQuery(r[i], ToLower(query))
    ensures forall i :: 0 <= i < |users| && MatchesQuery(users[i], ToLower(query)) ==> users[i] in r
  {
    if query == [] then
      SubseqReflexive(users);
      users
    else
      var needle := ToLower(query);
      FilterIsSubseq(users, u => MatchesQuery(u, needle));
      Filter(users, u => MatchesQuery(u, needle))
  }

  /** The search ignores the case of the query. */
  lemma FilteredUsersIgnoresCase(users: seq<UserRecord>, query: string)
    ensures FilteredUsers(users, ToLower(query)) == FilteredUsers(users, query)
  {
    assert ToLower(ToLower(query)) == ToLower(query);
  }

  /** A row belongs to the signed-in user. */
  predicate IsSelf(user: UserRecord, session: Option<Session>)
  {
    session.Some? && session.value.userId == Some(user.id)
  }

  /** `canEditRow`: not the actor's own row, not an owner's row, and the
      actor may grant something. */
  predicate CanEditRow(user: UserRecord, session: Option<Session>, allowed: seq<string>)
  {
    !IsSelf(user, session) && "owner" !in user.roles && |allowed| > 0
  }

  /** With the roles the actor may grant, a row is editable exactly when
      it is someone else's, not an owner's, and the actor is an owner or an
      admin. */
  lemma RowGating(user: UserRecord, session: Option<Session>)
    ensures CanEditRow(user, session, AllowedManagedRoles(session))
        <==> !IsSelf(user, session) && "owner" !in user.roles && CanManageUsers(session)
  {
  }

  /** The draft a row shows: the stored draft, or the user's grantable
      roles when there is none. */
  function DraftFor(drafts: map<string, seq<string>>, user: UserRecord, allowed: seq<string>): (r: seq<string>)
    ensures user.id !in drafts ==> r == ManagedRolesFor(user, allowed)
    ensures user.id in drafts ==> r == drafts[user.id]
  {
    if user.id in drafts then drafts[user.id] else ManagedRolesFor(user, allowed)
  }

  /** `isDirty`: the draft differs from the grantable roles the user has. */
  predicate IsDirty(drafts: map<string, seq<string>>, user: UserRecord, allowed: seq<string>)
  {
    !EqualsRoleLists(DraftFor(drafts, user, allowed), ManagedRolesFor(user, allowed))
  }

  /** The draft `toggleManagedRole` stores: the previous draft as a set,
      with `role` added or deleted, spread and sorted. */
  function ToggledDraft(previous: seq<string>, role: string, checked: bool): (r: seq<string>)
    ensures StrictlySorted(r)
    ensures role in r <==> checked
    ensures forall x :: x != role ==> (x in r <==> x in previous)
  {
    var current := Dedup(previous);
    var next := if checked then (if role in current then current else current + [role])
                else Filter(current, x => x != role);
    ToggledMembers(previous, current, role, checked, next);
    SortDistinct(next);
    SortStrings(next)
  }

  lemma ToggledMembers(previous: seq<string>, current: seq<string>, role: string, checked: bool, next: seq<string>)
    requires current == Dedup(previous)
    requires next == if checked then (if role in current then current else current + [role])
                     else Filter(current, x => x != role)
    ensures NoDups(next)
    ensures role in next <==> checked
    ensures forall x :: x != role ==> (x in next <==> x in previous)
  {
    DedupMembers(previous);
    if checked {
      TickedMembers(current, role, next);
    } else {
      FilterNoDups(current, x => x != role);
      UntickedMembers(current, role, next);
    }
  }

  /** What is there after adding a role: the role and every other member. */
  lemma TickedMembers(current: seq<string>, role: string, next: seq<string>)
    requires NoDups(current)
    requires next == if role in current then current else current + [role]
    ensures NoDups(next) && role in next
    ensures forall x :: x != role ==> (x in next <==> x in current)
  {
    if role !in current {
      assert next[|current|] == role;
      forall i, j | 0 <= i < j < |next| ensures next[i] != next[j] {
        if j == |current| {
          assert next[i] == current[i];
        }
      }
    }
  }

  /** What is left after removing a role: every other member, and only
      those. */
  lemma UntickedMembers(current: seq<string>, role: string, next: seq<string>)
    requires forall i :: 0 <= i < |next| ==> next[i] in current && next[i] != role
    requires forall i :: 0 <= i < |current| && current[i] != role ==> current[i] in next
    ensures role !in next
    ensures forall x :: x != role ==> (x in next <==> x in current)
  {
    forall x | x != role ensures x in next <==> x in current {
      if x in current {
        var i :| 0 <= i < |current| && current[i] == x;
      }
    }
  }

  /** Unticking a role just ticked on a sorted draft that lacked it gives
      the draft back. */
  lemma ToggleUndo(draft: seq<string>, role: string)
    requires StrictlySorted(draft) && role !in draft
    ensures ToggledDraft(ToggledDraft(draft, role, true), role, false) == draft
  {
    var r := ToggledDraft(ToggledDraft(draft, role, true), role, false);
    StrictlySortedUnique(r, draft);
  }

  /** Setting a box to the state it already shows leaves a sorted draft
      as it is. */
  lemma ToggleNoChange(draft: seq<string>, role: string, checked: bool)
    requires StrictlySorted(draft) && (role in draft <==> checked)
    ensures ToggledDraft(draft, role, checked) == draft
  {
    StrictlySortedUnique(ToggledDraft(draft, role, checked), draft);
  }

  predicate UniqueIds(users: seq<UserRecord>)
  {
    forall i, j :: 0 <= i < j < |users| ==> users[i].id != users[j].id
  }

  /** The drafts `loadUsers` seeds: each user's grantable roles under the
      user's id, a later record with the same id overriding an earlier one. */
  function SeedDrafts(users: seq<UserRecord>, allowed: seq<string>): (m: map<string, seq<string>>)
    ensures m.Keys == set i | 0 <= i < |users| :: users[i].id
  {
    if users == [] then map[]
    else
      var init := users[..|users| - 1];
      var last := users[|users| - 1];
      SeedDrafts(init, allowed)[last.id := ManagedRolesFor(last, allowed)]
  }

  /** The `for` loop of `loadUsers` that fills the draft record. */
  method SeedRoleDrafts(users: seq<UserRecord>, allowed: seq<string>) returns (drafts: map<string, seq<string>>)
    ensures drafts == SeedDrafts(users, allowed)
  {
    drafts := map[];
    for i := 0 to |users|
      invariant drafts == SeedDrafts(users[..i], allowed)
    {
      assert users[..i + 1][..i] == users[..i];
      drafts := drafts[users[i].id := ManagedRolesFor(users[i], allowed)];
    }
    assert users[..|users|] == users;
  }

  /** Seeded drafts are sorted when the users' roles are. */
  lemma {:induction false} SeedDraftsSorted(users: seq<UserRecord>, allowed: seq<string>)
    requires forall i :: 0 <= i < |users| ==> IsCanonical(users[i].roles)
    ensures forall id :: id in SeedDrafts(users, allowed) ==> StrictlySorted(SeedDrafts(users, allowed)[id])
  {
    if users != [] {
      var init := users[..|users| - 1];
      assert forall i :: 0 <= i < |init| ==> init[i] == users[i];
      SeedDraftsSorted(init, allowed);
    }
  }

  /** The seeded draft of a user no later record shares an id with is
      that user's grantable roles. */
  lemma {:induction false} SeedDraftsAt(users: seq<UserRecord>, allowed: seq<string>, i: nat)
    requires i < |users|
    requires forall j :: i < j < |users| ==> users[j].id != users[i].id
    ensures SeedDrafts(users, allowed)[users[i].id] == ManagedRolesFor(users[i], allowed)
  {
    if i < |users| - 1 {
      var init := users[..|users| - 1];
      SeedDraftsAt(init, allowed, i);
    }
  }

  /** Right after a load with distinct ids, no row is dirty. */
  lemma SeededRowsClean(users: seq<UserRecord>, allowed: seq<string>)
    requires UniqueIds(users)
    ensures forall i :: 0 <= i < |users| ==> !IsDirty(SeedDrafts(users, allowed), users[i], allowed)
  {
    forall i | 0 <= i < |users| ensures !IsDirty(SeedDrafts(users, allowed), users[i], allowed) {
      SeedDraftsAt(users, allowed, i);
    }
  }

  lemma MappedUsersCanonical(records: seq<UsersApiRecord>, mapped: seq<UserRecord>)
    requires mapped == Map(records, MapApiUser)
    ensures forall i :: 0 <= i < |mapped| ==> IsCanonical(mapped[i].roles)
  {
  }

  /** `previous.map(existing => existing.id === updated.id ? updated : existing)` */
  function ReplaceUser(users: seq<UserRecord>, updated: UserRecord): (r: seq<UserRecord>)
    ensures |r| == |users|
    ensures forall i :: 0 <= i < |users| ==> r[i] == (if users[i].id == updated.id then updated else users[i])
  {
    ReplaceWhere(users, (e: UserRecord) => e.id == updated.id, updated)
  }

  /** With distinct ids, saving replaces exactly the row with the updated
      user's id and nothing else. */
  lemma ReplaceUserUnique(users: seq<UserRecord>, updated: UserRecord, k: nat)
    requires UniqueIds(users) && k < |users| && users[k].id == updated.id
    ensures ReplaceUser(users, updated) == users[k := updated]
  {
    ReplaceWhereUnique(users, (e: UserRecord) => e.id == updated.id, updated, k);
  }

  /** The rows, drafts and error message of the users tab. */
  datatype SaveOutcome = SaveOutcome(users: seq<UserRecord>, drafts: map<string, seq<string>>, error: Option<string>)

  /** What `handleSaveRoles` leaves in the tab: on success the returned
      user replaces the row with its id, its draft is reseeded from its
      new roles (so the row is no longer dirty) and the error is cleared;
      a failed request, or a payload without a user, leaves the rows and
      drafts and reports the error (the thrown error's message, or "Failed to
      update roles." for a thrown value that is not an `Error`). Sorted drafts
      and normalised roles stay so. */
  function SavedRoles(
    users: seq<UserRecord>, drafts: map<string, seq<string>>, allowed: seq<string>,
    response: Result<Option<UsersApiRecord>, Option<string>>): (r: SaveOutcome)
    ensures response.Failure? && response.error.Some? ==>
      r == SaveOutcome(users, drafts, Some(response.error.value))
    ensures response.Failure? && response.error.None? ==>
      r == SaveOutcome(users, drafts, Some("Failed to update roles."))
    ensures response.Success? && response.value.None? ==>
      r == SaveOutcome(users, drafts, Some("Invalid API response"))
    ensures response.Success? && response.value.Some? ==>
      var updated := MapApiUser(response.value.value);
      && r.users == ReplaceUser(users, updated)
      && r.drafts.Keys == drafts.Keys + {updated.id}
      && (forall id :: id in drafts && id != updated.id ==> r.drafts[id] == drafts[id])
      && r.drafts[updated.id] == ManagedRolesFor(updated, allowed)
      && !IsDirty(r.drafts, updated, allowed)
      && r.error == None
    ensures (forall i :: 0 <= i < |users| ==> IsCanonical(users[i].roles)) ==>
      forall i :: 0 <= i < |r.users| ==> IsCanonical(r.users[i].roles)
    ensures (forall id :: id in drafts ==> StrictlySorted(drafts[id])) ==>
      forall id :: id in r.drafts ==> StrictlySorted(r.drafts[id])
  {
    match response
    case Failure(thrown) => SaveOutcome(users, drafts, Some(ErrorMessage(thrown, "Failed to update roles.")))
    case Success(payload) =>
      if payload.None? then SaveOutcome(users, drafts, Some("Invalid API response"))
      else
        var updated := MapApiUser(payload.value);
        SavedRowClean(drafts, updated, allowed);
        ReplaceUserCanonical(users, updated);
        SaveOutcome(ReplaceUser(users, updated), drafts[updated.id := ManagedRolesFor(updated, allowed)], None)
  }

  /** The reseeded draft of a user with normalised roles is sorted and
      matches the user. */
  lemma SavedRowClean(drafts: map<string, seq<string>>, updated: UserRecord, allowed: seq<string>)
    requires IsCanonical(updated.roles)
    ensures StrictlySorted(ManagedRolesFor(updated, allowed))
    ensures !IsDirty(drafts[updated.id := ManagedRolesFor(updated, allowed)], updated, allowed)
  {
    var next := drafts[updated.id := ManagedRolesFor(updated, allowed)];
    assert DraftFor(next, updated, allowed) == ManagedRolesFor(updated, allowed);
  }

  /** Replacing a row by a user with normalised roles keeps every row's
      roles normalised. */
  lemma ReplaceUserCanonical(users: seq<UserRecord>, updated: UserRecord)
    requires IsCanonical(updated.roles)
    ensures (forall i :: 0 <= i < |users| ==> IsCanonical(users[i].roles)) ==>
      forall i :: 0 <= i < |users| ==> IsCanonical(ReplaceUser(users, updated)[i].roles)
  {
  }

  /** The users tab: the loaded rows, the role drafts by user id, which
      rows are being saved and the tab's error message. */
  class RoleConsole {
    const session: Option<Session>
    const allowed: seq<string>
    var users: seq<UserRecord>
    var roleDrafts: map<string, seq<string>>
    var savingByUserId: map<string, bool>
    var usersError: Option<string>

    /** The grantable roles follow the session, every row's roles are
        normalised and every stored draft is sorted and duplicate-free. */
    ghost predicate Valid()
      reads this`users, this`roleDrafts
    {
      && allowed == AllowedManagedRoles(session)
      && (forall i :: 0 <= i < |users| ==> IsCanonical(users[i].roles))
      && (forall id :: id in roleDrafts ==> StrictlySorted(roleDrafts[id]))
    }

    constructor (session: Option<Session>)
      ensures Valid()
      ensures this.session == session
      ensures users == [] && roleDrafts == map[] && savingByUserId == map[] && usersError == None
    {
      this.session := session;
      allowed := AllowedManagedRoles(session);
      users := [];
      roleDrafts := map[];
      savingByUserId := map[];
      usersError := None;
    }

    /** `loadUsers`, given the outcome of `GET /users`: the caught error
        (its message, or `None` for a thrown value that is not an `Error`,
        which shows "Failed to load users."), or the payload's `users`
        field. */
    method LoadUsers(response: Result<Option<seq<UsersApiRecord>>, Option<string>>)
      requires Valid()
      modifies this`users, this`roleDrafts, this`usersError
      ensures Valid()
      ensures !(IsAuthenticated(session) && CanManageUsers(session)) ==>
        users == [] && roleDrafts == map[] && usersError == None
      ensures IsAuthenticated(session) && CanManageUsers(session) && response.Failure? ==>
        && users == [] && roleDrafts == map[]
        && usersError == Some(if response.error.Some? then response.error.value else "Failed to load users.")
      ensures IsAuthenticated(session) && CanManageUsers(session) && response.Success? ==>
        && users == Map(if response.value.Some? then response.value.value else [], MapApiUser)
        && roleDrafts == SeedDrafts(users, allowed)
        && usersError == None
    {
      if !(IsAuthenticated(session) && CanManageUsers(session)) {
        users := [];
        roleDrafts := map[];
        usersError := None;
        return;
      }
      usersError := None;
      if response.Failure? {
        users := [];
        roleDrafts := map[];
        usersError := Some(ErrorMessage(response.error, "Failed to load users."));
        return;
      }
      var nextUsers := Map(if response.value.Some? then response.value.value else [], MapApiUser);
      MappedUsersCanonical(if response.value.Some? then response.value.value else [], nextUsers);
      users := nextUsers;
      var nextDrafts := SeedRoleDrafts(nextUsers, allowed);
      SeedDraftsSorted(nextUsers, allowed);
      roleDrafts := nextDrafts;
    }

    /** `toggleManagedRole`: only the user's draft changes; it holds
        `role` exactly when `checked`, every other role as before. */
    method ToggleManagedRole(userId: string, role: string, checked: bool)
      requires Valid()
      modifies this`roleDrafts
      ensures Valid()
      ensures roleDrafts == old(roleDrafts)[userId :=
        ToggledDraft(if userId in old(roleDrafts) then old(roleDrafts)[userId] else [], role, checked)]
    {
      var previous := if userId in roleDrafts then roleDrafts[userId] else [];
      roleDrafts := roleDrafts[userId := ToggledDraft(previous, role, checked)];
    }

    /** `handleResetRoles` on a displayed row: the draft goes back to the
        user's grantable roles and the row is no longer dirty. */
    method ResetRoles(user: UserRecord)
      requires Valid() && user in users
      modifies this`roleDrafts
      ensures Valid()
      ensures roleDrafts == old(roleDrafts)[user.id := ManagedRolesFor(user, allowed)]
      ensures !IsDirty(roleDrafts, user, allowed)
    {
      roleDrafts := roleDrafts[user.id := ManagedRolesFor(user, allowed)];
    }

    /** `handleSaveRoles`, given the outcome of `PATCH /users/roles`: the
        caught error (its message, or `None` for a thrown value that is not
        an `Error`), or the payload's `user` field. Returns
        the roles it sent; the row is marked as saving while the request
        runs and not afterwards. */
    method SaveRoles(user: UserRecord, response: Result<Option<UsersApiRecord>, Option<string>>)
      returns (sent: seq<string>)
      requires Valid()
      modifies this
      ensures Valid()
      ensures sent == if user.id in old(roleDrafts) then old(roleDrafts)[user.id] else []
      ensures savingByUserId == old(savingByUserId)[user.id := false]
      ensures SaveOutcome(users, roleDrafts, usersError) == SavedRoles(old(users), old(roleDrafts), allowed, response)
    {
      sent := if user.id in roleDrafts then roleDrafts[user.id] else [];
      savingByUserId := savingByUserId[user.id := true];
      var outcome := SavedRoles(users, roleDrafts, allowed, response);
      users, roleDrafts, usersError := outcome.users, outcome.drafts, outcome.error;
      savingByUserId := savingByUserId[user.id := false];
    }
  }
}
