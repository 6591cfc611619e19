/** The seller-profile workspace page: who may open it, which team
    permissions the signed-in user holds on the loaded profile, how a
    profile is loaded together with its members, invites and mail
    settings, and how the invite list changes when an invite is created or
    revoked. Server answers are inputs; the requests the page makes are
    recorded by selector. */
module SellerProfilePage {
  import opened Wrappers
  import opened Strings
  import opened Seqs
  import opened Sessions
  import opened SellerProfileApi

  datatype MemberRole = OwnerRole | AdminRole | MemberOnly
  datatype InviteRole = InviteAdmin | InviteMember

  datatype Member = Member(userId: string, role: MemberRole, displayName: Option<string>, email: string)

  datatype Invite = Invite(id: string, sellerProfileId: string, invitedEmail: string, role: InviteRole, status: string)

  /** The parts of a seller profile the page uses. */
  datatype Profile = Profile(id: string, slug: string, displayName: string, status: string)

  datatype MailProvider = Google | Microsoft
  datatype MailStatus = MailActive | MailInactive

  /** A stored email-provider connection, and equally the body sent to
      store one. */
  datatype MailConnection = MailConnection(
    provider: MailProvider,
    accountEmail: Option<string>,
    senderEmail: Option<string>,
    senderName: Option<string>,
    status: MailStatus)

  /** The mail settings form fields. */
  datatype MailForm = MailForm(
    provider: MailProvider,
    accountEmail: string,
    senderEmail: string,
    senderName: string,
    status: MailStatus)

  datatype Tone = Idle | Succeeded | Failed | Saving
  datatype StatusState = StatusState(tone: Tone, message: string)

  const IDLE := StatusState(Idle, "")

  // ---------------------------------------------------------------------
  // Access and permissions

  /** `canManageSellerProfile`: a global owner, admin or seller role. */
  predicate CanManageSellerProfile(session: Option<Session>)
  {
    HasRole(session, "owner") || HasRole(session, "admin") || HasRole(session, "seller")
  }

  datatype PageView = LoadingSession | SignIn | Forbidden | Workspace

  /** What the page renders before any profile work. */
  function View(session: Option<Session>, isLoading: bool): (v: PageView)
    ensures v == Workspace <==>
      !isLoading && session.Some? && session.value.authenticated && CanManageSellerProfile(session)
    ensures v == SignIn <==> !isLoading && !(session.Some? && session.value.authenticated)
    ensures v == LoadingSession <==> isLoading
  {
    if isLoading then LoadingSession
    else if !(session.Some? && session.value.authenticated) then SignIn
    else if !CanManageSellerProfile(session) then Forbidden
    else Workspace
  }

  /** The role of the first member with the given user id. */
  function RoleOf(members: seq<Member>, userId: string): (r: Option<MemberRole>)
    ensures r.None? <==> forall i :: 0 <= i < |members| ==> members[i].userId != userId
    ensures r.Some? ==> exists i :: 0 <= i < |members| && members[i].userId == userId && members[i].role == r.value
                                  && forall j :: 0 <= j < i ==> members[j].userId != userId
  {
    if members == [] then None
    else if members[0].userId == userId then Some(members[0].role)
    else
      var r := RoleOf(members[1..], userId);
      if r.Some? then
        ghost var i :| 0 <= i < |members[1..]| && members[1..][i].userId == userId && members[1..][i].role == r.value
                     && forall j :: 0 <= j < i ==> members[1..][j].userId != userId;
        assert members[i + 1] == members[1..][i];
        assert forall j :: 1 <= j < i + 1 ==> members[j] == members[1..][j - 1];
        r
      else
        assert forall i :: 1 <= i < |members| ==> members[i] == members[1..][i - 1];
        r
  }

  /** `myMemberRole`: nothing without a (non-empty) session user id, else
      the role of the first member row carrying that id. */
  function MyMemberRole(session: Option<Session>, members: seq<Member>): (r: Option<MemberRole>)
    ensures session.None? || session.value.userId.None? || session.value.userId.value == [] ==> r.None?
    ensures r.Some? ==> exists i :: 0 <= i < |members| && members[i].userId == session.value.userId.value
                                  && members[i].role == r.value
  {
    if session.None? || session.value.userId.None? || session.value.userId.value == [] then None
    else RoleOf(members, session.value.userId.value)
  }

  /** `canEditIdentity`. */
  predicate CanEditIdentity(session: Option<Session>, myRole: Option<MemberRole>)
  {
    HasRole(session, "owner") || myRole == Some(OwnerRole)
  }

  /** `canManageTeam`. */
  predicate CanManageTeam(session: Option<Session>, myRole: Option<MemberRole>)
  {
    HasRole(session, "owner") || myRole == Some(OwnerRole) || myRole == Some(AdminRole)
  }

  /** `canConfigureProfileMail`. */
  predicate CanConfigureProfileMail(session: Option<Session>, myRole: Option<MemberRole>)
  {
    HasRole(session, "owner") || myRole == Some(OwnerRole)
  }

  /** `canTransferOwnership`. */
  predicate CanTransferOwnership(session: Option<Session>, myRole: Option<MemberRole>)
  {
    HasRole(session, "owner") || myRole == Some(OwnerRole)
  }

  /** Editing the identity, configuring mail and transferring ownership
      are one permission, and it includes managing the team; a team admin
      manages the team without the other three. */
  lemma PermissionsNest(session: Option<Session>, members: seq<Member>)
    ensures var role := MyMemberRole(session, members);
      && (CanEditIdentity(session, role) <==> CanConfigureProfileMail(session, role))
      && (CanEditIdentity(session, role) <==> CanTransferOwnership(session, role))
      && (CanEditIdentity(session, role) ==> CanManageTeam(session, role))
      && (!HasRole(session, "owner") && role == Some(AdminRole) ==>
            CanManageTeam(session, role) && !CanEditIdentity(session, role))
  {
  }

  /** Without the global owner role, team permissions come only from a
      member row carrying the session's own user id. */
  lemma TeamPermissionNeedsMembership(session: Option<Session>, members: seq<Member>)
    requires !HasRole(session, "owner")
    requires CanManageTeam(session, MyMemberRole(session, members))
    ensures session.Some? && session.value.userId.Some?
    ensures exists i :: 0 <= i < |members| && members[i].userId == session.value.userId.value
                       && members[i].role != MemberOnly
  {
  }

  // ---------------------------------------------------------------------
  // Loading

  /** The selector `loadProfileBundle` builds: both branches of its
      conditional address the profile by slug. */
  function BundleSelector(slugOrId: string): (sel: Selector)
    ensures sel == Selector(None, Some(slugOrId))
  {
    if Contains(slugOrId, "-") && !(|slugOrId| >= 5 && slugOrId[..5] == "team-")
    then Selector(None, Some(slugOrId))
    else Selector(None, Some(slugOrId))
  }

  /** The loaded selector is never refused by the client when it came
      through the load handler's blank check. */
  lemma BundleSelectorAccepted(value: string)
    requires Trim(value) != []
    ensures SelectorPairs(BundleSelector(Trim(value))) != []
  {
    var t := Trim(value);
    var sel := BundleSelector(t);
    assert Trim(t) == t;
    assert SlugValue(sel.slug) == Some(ToLower(t));
    assert UrlParams.Pair("slug", SlugValue(sel.slug)) == [("slug", ToLower(t))];
  }

  /** `syncMailForm(connection)`: the form mirrors the connection, with
      empty strings for missing values and the defaults `microsoft` and
      `active` without a connection. */
  function MailFormOf(connection: Option<MailConnection>): (f: MailForm)
    ensures connection.None? ==> f == MailForm(Microsoft, "", "", "", MailActive)
    ensures connection.Some? ==> f.provider == connection.value.provider && f.status == connection.value.status
    ensures connection.Some? ==>
      && (connection.value.accountEmail.Some? ==> f.accountEmail == connection.value.accountEmail.value)
      && (connection.value.senderEmail.Some? ==> f.senderEmail == connection.value.senderEmail.value)
      && (connection.value.senderName.Some? ==> f.senderName == connection.value.senderName.value)
    ensures connection.Some? ==>
      && (connection.value.accountEmail.None? ==> f.accountEmail == "")
      && (connection.value.senderEmail.None? ==> f.senderEmail == "")
      && (connection.value.senderName.None? ==> f.senderName == "")
  {
    if connection.None? then MailForm(Microsoft, "", "", "", MailActive)
    else
      var c := connection.value;
      MailForm(c.provider, OrEmpty(c.accountEmail), OrEmpty(c.senderEmail), OrEmpty(c.senderName), c.status)
  }

  /** `value ?? ""` */
  function OrEmpty(v: Option<string>): string
  {
    if v.Some? then v.value else ""
  }

  /** `value || null` */
  function OrNull(s: string): Option<string>
  {
    if s == [] then None else Some(s)
  }

  /** The body `handleSaveMailSettings` sends for the form. */
  function UpsertBody(form: MailForm): (c: MailConnection)
    ensures c.provider == form.provider && c.status == form.status
    ensures c.accountEmail.None? <==> form.accountEmail == []
    ensures c.senderEmail.None? <==> form.senderEmail == []
    ensures c.senderName.None? <==> form.senderName == []
    ensures c.accountEmail.Some? ==> c.accountEmail.value == form.accountEmail
    ensures c.senderEmail.Some? ==> c.senderEmail.value == form.senderEmail
    ensures c.senderName.Some? ==> c.senderName.value == form.senderName
  {
    MailConnection(form.provider, OrNull(form.accountEmail), OrNull(form.senderEmail), OrNull(form.senderName), form.status)
  }

  /** A connection without empty-string fields, synced into the form and
      sent back, is the body the page sends. */
  lemma UpsertBodyOfMailForm(c: MailConnection)
    requires c.accountEmail != Some("") && c.senderEmail != Some("") && c.senderName != Some("")
    ensures UpsertBody(MailFormOf(Some(c))) == c
  {
  }

  /** Saving the form and syncing it from a server that echoes the body
      gives back the same form. */
  lemma MailFormRoundTrip(form: MailForm)
    ensures MailFormOf(Some(UpsertBody(form))) == form
  {
  }

  // ---------------------------------------------------------------------
  // Invite list updates

  function InviteIds(invites: seq<Invite>): (ids: seq<string>)
    ensures |ids| == |invites| && forall i :: 0 <= i < |invites| ==> ids[i] == invites[i].id
  {
    seq(|invites|, i requires 0 <= i < |invites| => invites[i].id)
  }

  /** The list after a revoke: every entry carrying the revoked invite's
      id is replaced by the server's copy. */
  function ReplaceInvite(invites: seq<Invite>, revoked: Invite): (r: seq<Invite>)
    ensures |r| == |invites|
    ensures forall i :: 0 <= i < |invites| ==> r[i] == if invites[i].id == revoked.id then revoked else invites[i]
  {
    ReplaceWhere(invites, (item: Invite) => item.id == revoked.id, revoked)
  }

  /** A revoke leaves the list of ids as it was. */
  lemma ReplaceInviteKeepsIds(invites: seq<Invite>, revoked: Invite)
    ensures InviteIds(ReplaceInvite(invites, revoked)) == InviteIds(invites)
  {
  }

  /** With distinct ids, a revoke changes exactly the matching entry, and
      nothing when no entry matches. */
  lemma ReplaceInviteAt(invites: seq<Invite>, revoked: Invite, k: nat)
    requires NoDups(InviteIds(invites))
    requires k < |invites| && invites[k].id == revoked.id
    ensures ReplaceInvite(invites, revoked) == invites[k := revoked]
  {
    var ids := InviteIds(invites);
    forall i | 0 <= i < |invites| && i != k ensures invites[i].id != revoked.id {
      assert ids[i] != ids[k];
    }
    ReplaceWhereUnique(invites, (item: Invite) => item.id == revoked.id, revoked, k);
  }

  lemma ReplaceInviteAbsent(invites: seq<Invite>, revoked: Invite)
    requires revoked.id !in InviteIds(invites)
    ensures ReplaceInvite(invites, revoked) == invites
  {
  }

  /** Prepending an invite with a fresh id keeps the ids distinct. */
  lemma PrependKeepsDistinct(invites: seq<Invite>, created: Invite)
    requires NoDups(InviteIds(invites)) && created.id !in InviteIds(invites)
    ensures NoDups(InviteIds([created] + invites))
  {
    var ids := InviteIds([created] + invites);
    assert ids == [created.id] + InviteIds(invites);
  }

  /** The answer to an invite creation. */
  datatype InviteCreated = InviteCreated(invite: Invite, acceptedImmediately: bool, delivery: string)

  function InviteCreatedMessage(created: InviteCreated): string
  {
    if created.acceptedImmediately then "User existed and was added immediately."
    else "Invite created (" + created.delivery + ")."
  }


  // ---------------------------------------------------------------------
  // The page state

  class Workspace {
    const session: Option<Session>
    var selector: string
    var profile: Option<Profile>
    var members: seq<Member>
    var invites: seq<Invite>
    var mail: Option<MailConnection>
    var mailForm: MailForm
    var profileStatus: StatusState
    var inviteStatus: StatusState
    var transferStatus: StatusState
    var mailSettingsStatus: StatusState
    var inviteEmail: string
    var inviteRole: InviteRole
    /** The selector-addressed requests the profile loads have made, in
        order. */
    var sent: seq<(SelectorCall, Selector)>

    constructor(session: Option<Session>)
      ensures this.session == session
      ensures selector == "" && profile == None && members == [] && invites == [] && mail == None
      ensures mailForm == MailFormOf(None) && inviteEmail == "" && inviteRole == InviteMember
      ensures profileStatus == IDLE && inviteStatus == IDLE && transferStatus == IDLE && mailSettingsStatus == IDLE
      ensures sent == []
    {
      this.session := session;
      selector := "";
      profile := None;
      members := [];
      invites := [];
      mail := None;
      mailForm := MailFormOf(None);
      profileStatus := IDLE;
      inviteStatus := IDLE;
      transferStatus := IDLE;
      mailSettingsStatus := IDLE;
      inviteEmail := "";
      inviteRole := InviteMember;
      sent := [];
    }

    /** `syncMailForm(connection)` */
    method SyncMailForm(connection: Option<MailConnection>)
      modifies this
      ensures mail == connection && mailForm == MailFormOf(connection)
      ensures selector == old(selector) && profile == old(profile) && members == old(members)
      ensures invites == old(invites) && sent == old(sent)
      ensures profileStatus == old(profileStatus) && inviteStatus == old(inviteStatus)
      ensures transferStatus == old(transferStatus) && mailSettingsStatus == old(mailSettingsStatus)
      ensures inviteEmail == old(inviteEmail) && inviteRole == old(inviteRole)
    {
      mail := connection;
      mailForm := MailFormOf(connection);
    }

    /** `handleLoadProfile`: nothing happens for a blank selector; any
        other is trimmed and handed to `loadProfileBundle`. */
    method LoadProfile(
      profileResponse: Result<Profile, Option<string>>,
      membersResponse: Result<seq<Member>, string>,
      invitesResponse: Result<seq<Invite>, string>,
      mailResponse: Result<Option<MailConnection>, string>)
      modifies this
      ensures Trim(old(selector)) == [] ==>
        && profile == old(profile) && members == old(members) && invites == old(invites)
        && mail == old(mail) && mailForm == old(mailForm) && sent == old(sent)
        && profileStatus == old(profileStatus) && inviteStatus == old(inviteStatus)
        && transferStatus == old(transferStatus) && mailSettingsStatus == old(mailSettingsStatus)
      ensures Trim(old(selector)) != [] ==>
        && inviteStatus == IDLE && transferStatus == IDLE && mailSettingsStatus == IDLE
        && Loaded(Trim(old(selector)), old(sent), profileResponse, membersResponse, invitesResponse, mailResponse)
      ensures selector == old(selector) && inviteEmail == old(inviteEmail) && inviteRole == old(inviteRole)
    {
      var value := Trim(selector);
      if value == [] {
        return;
      }
      LoadProfileBundle(value, profileResponse, membersResponse, invitesResponse, mailResponse);
    }

    /** The state `loadProfileBundle(value)` leaves, given the answers to
        its fetches and the requests made before it. The profile is
        fetched first, by slug. When that fails nothing more is fetched and
        everything loaded is cleared; when it succeeds, each of the
        members, invites and mail fetches that fails degrades to an empty
        value on its own. */
    ghost predicate Loaded(
      value: string,
      before: seq<(SelectorCall, Selector)>,
      profileResponse: Result<Profile, Option<string>>,
      membersResponse: Result<seq<Member>, string>,
      invitesResponse: Result<seq<Invite>, string>,
      mailResponse: Result<Option<MailConnection>, string>)
      reads this
    {
      && (profileResponse.Failure? ==>
        && profile == None && members == [] && invites == [] && mail == None
        && mailForm == MailFormOf(None)
        && profileStatus == StatusState(Failed, ErrorMessage(profileResponse.error, "Failed to load seller profile"))
        && sent == before + [(FetchProfile, Selector(None, Some(value)))])
      && (profileResponse.Success? ==>
        && profile == Some(profileResponse.value)
        && members == (if membersResponse.Success? then membersResponse.value else [])
        && invites == (if invitesResponse.Success? then invitesResponse.value else [])
        && mail == (if mailResponse.Success? then mailResponse.value else None)
        && mailForm == MailFormOf(mail)
        && profileStatus == StatusState(Succeeded, "Seller profile loaded.")
        && sent == before + [(FetchProfile, Selector(None, Some(value))),
                             (FetchMembers, Selector(None, Some(value))),
                             (FetchInvites, Selector(None, Some(value))),
                             (FetchEmailProvider, Selector(None, Some(value)))])
    }

    /** `loadProfileBundle(value)` */
    method LoadProfileBundle(
      value: string,
      profileResponse: Result<Profile, Option<string>>,
      membersResponse: Result<seq<Member>, string>,
      invitesResponse: Result<seq<Invite>, string>,
      mailResponse: Result<Option<MailConnection>, string>)
      modifies this
      ensures inviteStatus == IDLE && transferStatus == IDLE && mailSettingsStatus == IDLE
      ensures Loaded(value, old(sent), profileResponse, membersResponse, invitesResponse, mailResponse)
      ensures selector == old(selector) && inviteEmail == old(inviteEmail) && inviteRole == old(inviteRole)
    {
      inviteStatus := IDLE;
      transferStatus := IDLE;
      mailSettingsStatus := IDLE;
      var sel := BundleSelector(value);
      if profileResponse.Failure? {
        sent := sent + [(FetchProfile, sel)];
        ClearBundle(ErrorMessage(profileResponse.error, "Failed to load seller profile"));
      } else {
        sent := sent + [(FetchProfile, sel), (FetchMembers, sel), (FetchInvites, sel), (FetchEmailProvider, sel)];
        ApplyBundle(profileResponse.value,
          if membersResponse.Success? then membersResponse.value else [],
          if invitesResponse.Success? then invitesResponse.value else [],
          if mailResponse.Success? then mailResponse.value else None);
      }
    }

    /** The failure path of `loadProfileBundle`. */
    method ClearBundle(message: string)
      modifies this
      ensures profile == None && members == [] && invites == [] && mail == None && mailForm == MailFormOf(None)
      ensures profileStatus == StatusState(Failed, message)
      ensures sent == old(sent) && selector == old(selector)
      ensures inviteStatus == old(inviteStatus) && transferStatus == old(transferStatus)
      ensures mailSettingsStatus == old(mailSettingsStatus)
      ensures inviteEmail == old(inviteEmail) && inviteRole == old(inviteRole)
    {
      profile := None;
      members := [];
      invites := [];
      SyncMailForm(None);
      profileStatus := StatusState(Failed, message);
    }

    /** The success path of `loadProfileBundle`, after the sub-fetches
        have degraded. */
    method ApplyBundle(p: Profile, membersData: seq<Member>, invitesData: seq<Invite>, mailData: Option<MailConnection>)
      modifies this
      ensures profile == Some(p) && members == membersData && invites == invitesData
      ensures mail == mailData && mailForm == MailFormOf(mailData)
      ensures profileStatus == StatusState(Succeeded, "Seller profile loaded.")
      ensures sent == old(sent) && selector == old(selector)
      ensures inviteStatus == old(inviteStatus) && transferStatus == old(transferStatus)
      ensures mailSettingsStatus == old(mailSettingsStatus)
      ensures inviteEmail == old(inviteEmail) && inviteRole == old(inviteRole)
    {
      profile := Some(p);
      members := membersData;
      invites := invitesData;
      SyncMailForm(mailData);
      profileStatus := StatusState(Succeeded, "Seller profile loaded.");
    }

    /** `handleInviteCreate`: with a profile loaded, a created invite goes
        to the front of the list, nothing else in the list changes, and the
        form returns to an empty email and the `member` role. */
    method CreateInvite(response: Result<InviteCreated, Option<string>>)
      modifies this`invites, this`inviteStatus, this`inviteEmail, this`inviteRole
      ensures old(profile).None? ==>
        invites == old(invites) && inviteStatus == old(inviteStatus)
        && inviteEmail == old(inviteEmail) && inviteRole == old(inviteRole)
      ensures old(profile).Some? && response.Success? ==>
        && invites == [response.value.invite] + old(invites)
        && inviteStatus == StatusState(Succeeded, InviteCreatedMessage(response.value))
        && inviteEmail == "" && inviteRole == InviteMember
      ensures old(profile).Some? && response.Failure? ==>
        && invites == old(invites)
        && inviteStatus == StatusState(Failed, ErrorMessage(response.error, "Failed to create invite"))
        && inviteEmail == old(inviteEmail) && inviteRole == old(inviteRole)
    {
      if profile.None? {
        return;
      }
      inviteStatus := StatusState(Saving, "Creating invite...");
      match response
      case Success(created) =>
        invites := [created.invite] + invites;
        inviteStatus := StatusState(Succeeded, InviteCreatedMessage(created));
        inviteEmail := "";
        inviteRole := InviteMember;
      case Failure(thrown) =>
        inviteStatus := StatusState(Failed, ErrorMessage(thrown, "Failed to create invite"));
    }

    /** `handleInviteRevoke`: with a profile loaded, the server's copy of
        the revoked invite replaces the entry with its id. */
    method RevokeInvite(response: Result<Invite, Option<string>>)
      modifies this`invites, this`inviteStatus
      ensures old(profile).None? ==> invites == old(invites) && inviteStatus == old(inviteStatus)
      ensures old(profile).Some? && response.Success? ==>
        invites == ReplaceInvite(old(invites), response.value) && inviteStatus == StatusState(Succeeded, "Invite revoked.")
      ensures old(profile).Some? && response.Failure? ==>
        invites == old(invites) && inviteStatus == StatusState(Failed, ErrorMessage(response.error, "Failed to revoke invite"))
    {
      if profile.None? {
        return;
      }
      inviteStatus := StatusState(Saving, "Revoking invite...");
      match response
      case Success(revoked) =>
        invites := ReplaceInvite(invites, revoked);
        inviteStatus := StatusState(Succeeded, "Invite revoked.");
      case Failure(thrown) =>
        inviteStatus := StatusState(Failed, ErrorMessage(thrown, "Failed to revoke invite"));
    }

    /** `handleSaveMailSettings`: with a profile loaded, the form is sent
        (blank fields as null) and the stored connection synced back. */
    method SaveMailSettings(response: Result<MailConnection, Option<string>>) returns (body: Option<MailConnection>)
      modifies this
      ensures old(profile).None? ==>
        body == None && mail == old(mail) && mailForm == old(mailForm)
        && mailSettingsStatus == old(mailSettingsStatus)
      ensures old(profile).Some? ==> body == Some(UpsertBody(old(mailForm)))
      ensures old(profile).Some? && response.Success? ==>
        mail == Some(response.value) && mailForm == MailFormOf(mail)
        && mailSettingsStatus == StatusState(Succeeded, "Email provider settings saved.")
      ensures old(profile).Some? && response.Failure? ==>
        mail == old(mail) && mailForm == old(mailForm)
        && mailSettingsStatus == StatusState(Failed, ErrorMessage(response.error, "Failed to save email provider settings"))
      ensures profile == old(profile) && members == old(members) && invites == old(invites)
      ensures selector == old(selector) && sent == old(sent) && profileStatus == old(profileStatus)
      ensures transferStatus == old(transferStatus) && inviteStatus == old(inviteStatus)
      ensures inviteEmail == old(inviteEmail) && inviteRole == old(inviteRole)
    {
      if profile.None? {
        return None;
      }
      mailSettingsStatus := StatusState(Saving, "Saving email provider settings...");
      body := Some(UpsertBody(mailForm));
      match response
      case Success(updated) =>
        SyncMailForm(Some(updated));
        mailSettingsStatus := StatusState(Succeeded, "Email provider settings saved.");
      case Failure(thrown) =>
        mailSettingsStatus := StatusState(Failed, ErrorMessage(thrown, "Failed to save email provider settings"));
    }

    /** `handleDeleteMailSettings`: a removed connection empties the form. */
    method DeleteMailSettings(response: Result<bool, Option<string>>)
      modifies this
      ensures old(profile).None? ==>
        mail == old(mail) && mailForm == old(mailForm)
        && mailSettingsStatus == old(mailSettingsStatus)
      ensures old(profile).Some? && response.Success? ==>
        mail == None && mailForm == MailFormOf(None)
        && mailSettingsStatus == StatusState(Succeeded, "Email provider settings removed.")
      ensures old(profile).Some? && response.Failure? ==>
        mail == old(mail) && mailForm == old(mailForm)
        && mailSettingsStatus == StatusState(Failed, ErrorMessage(response.error, "Failed to remove email provider settings"))
      ensures profile == old(profile) && members == old(members) && invites == old(invites)
      ensures selector == old(selector) && sent == old(sent) && profileStatus == old(profileStatus)
      ensures transferStatus == old(transferStatus) && inviteStatus == old(inviteStatus)
      ensures inviteEmail == old(inviteEmail) && inviteRole == old(inviteRole)
    {
      if profile.None? {
        return;
      }
      mailSettingsStatus := StatusState(Saving, "Removing email provider settings...");
      match response
      case Success(_) =>
        SyncMailForm(None);
        mailSettingsStatus := StatusState(Succeeded, "Email provider settings removed.");
      case Failure(thrown) =>
        mailSettingsStatus := StatusState(Failed, ErrorMessage(thrown, "Failed to remove email provider settings"));
    }
  }
}
