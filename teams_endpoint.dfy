/** The team endpoints of `app/api/v1/endpoints/teams.py`.  The caller is
    the user the authentication dependency resolved; the admin-only routes
    require an admin caller. */
module TeamsEndpoint {
  import opened Wrappers
  import opened UserModel
  import opened TeamModel

  /** The role of a `TeamMemberAdd` body: the schema default when omitted. */
  function RequestedRole(role: Option<string>): (r: string)
    ensures role.Some? ==> r == role.value
    ensures role.None? ==> r == Member
  {
    if role.Some? then role.value else Member
  }

  /** `create_team`: the team is stored, then its creator is stored as its
      leader. */
  method CreateTeam(store: TeamStore, caller: User, name: string, description: Option<string>, now: int)
    returns (team: Team)
    requires store.Valid() && caller.role == Admin
    modifies store
    ensures store.Valid()
    ensures team == Team(old(store.nextTeamId), name, description, now)
    ensures store.teams == old(store.teams)[team.id := team]
    ensures store.members ==
      old(store.members)[old(store.nextMemberId) := TeamMember(old(store.nextMemberId), team.id, caller.id, Leader, now)]
    ensures IsLeader(store.members, team.id, caller.id) && team.id in VisibleTeams(store.teams, store.members, caller)
  {
    team := Team(store.nextTeamId, name, description, now);
    store.teams := store.teams[team.id := team];
    store.nextTeamId := store.nextTeamId + 1;
    var m := NewMember(store.nextMemberId, team.id, caller.id, Some(Leader), now);
    assert forall k :: k in store.members ==> store.members[k].teamId != team.id;
    store.members := store.members[m.id := m];
    store.nextMemberId := store.nextMemberId + 1;
    assert store.members[m.id] == m;
  }

  /** `get_teams`: every team for an admin; for anyone else exactly the
      teams the caller has a membership row in. */
  function VisibleTeams(teams: map<nat, Team>, members: map<nat, TeamMember>, caller: User): (r: map<nat, Team>)
    ensures forall k :: k in r ==> k in teams && r[k] == teams[k]
    ensures caller.role == Admin ==> r == teams
    ensures caller.role != Admin ==> forall k :: k in teams ==> (k in r <==> IsMember(members, k, caller.id))
  {
    if caller.role == Admin then teams
    else map k | k in teams && IsMember(members, k, caller.id) :: teams[k]
  }

  /** The shared guard of `get_team` and `get_team_members`: 404 for a
      missing team, then 403 for a non-admin who is not a member. */
  function TeamAccess(teams: map<nat, Team>, members: map<nat, TeamMember>, caller: User, teamId: nat,
                      forbidden: string): (r: Outcome<Team>)
    ensures teamId !in teams ==> r == Fail(404, "Team not found")
    ensures teamId in teams && caller.role != Admin && !IsMember(members, teamId, caller.id) ==> r == Fail(403, forbidden)
    ensures r.Ok? <==> teamId in teams && (caller.role == Admin || IsMember(members, teamId, caller.id))
    ensures r.Ok? ==> r.value == teams[teamId]
  {
    if teamId !in teams then Fail(404, "Team not found")
    else if caller.role != Admin && !IsMember(members, teamId, caller.id) then Fail(403, forbidden)
    else Ok(teams[teamId])
  }

  /** `get_team`: the team itself, behind the shared guard. */
  function GetTeam(teams: map<nat, Team>, members: map<nat, TeamMember>, caller: User, teamId: nat): (r: Outcome<Team>)
    ensures teamId !in teams ==> r == Fail(404, "Team not found")
    ensures teamId in teams && !r.Ok? ==> r == Fail(403, "Not authorized to view this team")
    ensures r.Ok? <==> teamId in teams && (caller.role == Admin || IsMember(members, teamId, caller.id))
    ensures r.Ok? ==> r.value == teams[teamId]
  {
    TeamAccess(teams, members, caller, teamId, "Not authorized to view this team")
  }

  /** `get_team_members`: the team's membership rows, behind the same guard. */
  function GetTeamMembers(teams: map<nat, Team>, members: map<nat, TeamMember>, caller: User, teamId: nat)
    : (r: Outcome<map<nat, TeamMember>>)
    ensures TeamAccess(teams, members, caller, teamId, "").Ok? <==> r.Ok?
    ensures r.Ok? ==> r.value == MembersOf(members, teamId)
    ensures teamId !in teams ==> r == Fail(404, "Team not found")
    ensures teamId in teams && !r.Ok? ==> r == Fail(403, "Not authorized to view team members")
  {
    match TeamAccess(teams, members, caller, teamId, "Not authorized to view team members")
    case Fail(s, d) => Fail(s, d)
    case Ok(_) => Ok(MembersOf(members, teamId))
  }

  /** A caller may open exactly the teams `get_teams` lists for them. */
  lemma OpenIffListed(teams: map<nat, Team>, members: map<nat, TeamMember>, caller: User, teamId: nat)
    ensures GetTeam(teams, members, caller, teamId).Ok? <==> teamId in VisibleTeams(teams, members, caller)
    ensures GetTeamMembers(teams, members, caller, teamId).Ok? <==> teamId in VisibleTeams(teams, members, caller)
  {
  }

  /** `add_team_member`: 404 for a missing team, 403 for a caller who is
      neither admin nor the team's leader, 404 for a missing user, 400 for a
      user already in the team; otherwise one row with the requested role. */
  method AddTeamMember(store: TeamStore, users: map<nat, User>, caller: User, teamId: nat, userId: nat,
                       role: Option<string>, now: int)
    returns (r: Outcome<TeamMember>)
    requires store.Valid()
    modifies store
    ensures store.Valid() && store.teams == old(store.teams)
    ensures teamId !in old(store.teams) ==> r == Fail(404, "Team not found")
    ensures teamId in old(store.teams) && caller.role != Admin && !IsLeader(old(store.members), teamId, caller.id) ==>
      r == Fail(403, "Only team leaders can add members")
    ensures teamId in old(store.teams) && (caller.role == Admin || IsLeader(old(store.members), teamId, caller.id)) ==>
      && (userId !in users ==> r == Fail(404, "User not found"))
      && (userId in users && IsMember(old(store.members), teamId, userId) ==> r == Fail(400, "User is already a team member"))
      && (userId in users && !IsMember(old(store.members), teamId, userId) ==>
            r == Ok(NewMember(old(store.nextMemberId), teamId, userId, Some(RequestedRole(role)), now)))
    ensures r.Fail? ==> store.members == old(store.members) && store.nextMemberId == old(store.nextMemberId)
    ensures r.Ok? ==> store.members == old(store.members)[r.value.id := r.value] && IsMember(store.members, teamId, userId)
  {
    if teamId !in store.teams {
      return Fail(404, "Team not found");
    }
    if caller.role != Admin && !IsLeader(store.members, teamId, caller.id) {
      return Fail(403, "Only team leaders can add members");
    }
    if userId !in users {
      return Fail(404, "User not found");
    }
    if IsMember(store.members, teamId, userId) {
      return Fail(400, "User is already a team member");
    }
    var m := NewMember(store.nextMemberId, teamId, userId, Some(RequestedRole(role)), now);
    store.members := store.members[m.id := m];
    store.nextMemberId := store.nextMemberId + 1;
    assert store.members[m.id] == m;
    r := Ok(m);
  }

  /** `remove_team_member`: 403 for a caller who is neither admin nor the
      team's leader, then 404 when the user has no row in the team (a
      missing team is not checked and lands here); otherwise exactly that
      row goes. */
  method RemoveTeamMember(store: TeamStore, caller: User, teamId: nat, userId: nat) returns (r: Outcome<()>)
    requires store.Valid()
    modifies store
    ensures store.Valid() && store.teams == old(store.teams) && store.nextMemberId == old(store.nextMemberId)
    ensures caller.role != Admin && !IsLeader(old(store.members), teamId, caller.id) ==>
      r == Fail(403, "Only team leaders can remove members")
    ensures caller.role == Admin || IsLeader(old(store.members), teamId, caller.id) ==>
      !IsMember(old(store.members), teamId, userId) ==> r == Fail(404, "Team member not found")
    ensures caller.role == Admin || IsLeader(old(store.members), teamId, caller.id) ==>
      IsMember(old(store.members), teamId, userId) ==> r == Ok(())
    ensures r.Fail? ==> store.members == old(store.members)
    ensures r.Ok? ==> !IsMember(store.members, teamId, userId)
    ensures r.Ok? ==> exists k ::
      && k in old(store.members) && old(store.members)[k].teamId == teamId && old(store.members)[k].userId == userId
      && store.members == old(store.members) - {k}
  {
    if caller.role != Admin && !IsLeader(store.members, teamId, caller.id) {
      return Fail(403, "Only team leaders can remove members");
    }
    if !IsMember(store.members, teamId, userId) {
      return Fail(404, "Team member not found");
    }
    var k :| k in store.members && store.members[k].teamId == teamId && store.members[k].userId == userId;
    store.members := store.members - {k};
    r := Ok(());
  }

  /** `delete_team`: 404 for a missing team; otherwise the team and, by the
      cascade, all its membership rows go. */
  method DeleteTeam(store: TeamStore, caller: User, teamId: nat) returns (r: Outcome<()>)
    requires store.Valid() && caller.role == Admin
    modifies store
    ensures store.Valid()
    ensures teamId !in old(store.teams) ==>
      r == Fail(404, "Team not found") && store.teams == old(store.teams) && store.members == old(store.members)
    ensures teamId in old(store.teams) ==>
      r == Ok(()) && store.teams == old(store.teams) - {teamId} && store.members == Cascade(old(store.members), teamId)
  {
    if teamId !in store.teams {
      return Fail(404, "Team not found");
    }
    store.teams := store.teams - {teamId};
    store.members := Cascade(store.members, teamId);
    r := Ok(());
  }
}
