/** The `teams` and `team_members` tables (`app/models/team.py`). */
module TeamModel {
  import opened Wrappers

  const Leader := "leader"
  /** `TeamMember.role` default, also the default of `TeamMemberAdd.role`. */
  const Member := "member"

  datatype Team = Team(id: nat, name: string, description: Option<string>, createdAt: int)

  datatype TeamMember = TeamMember(id: nat, teamId: nat, userId: nat, role: string, joinedAt: int)

  /** A membership row as inserted: the role takes its column default when
      the insert does not give one. */
  function NewMember(id: nat, team: nat, user: nat, role: Option<string>, now: int): (m: TeamMember)
    ensures m.id == id && m.teamId == team && m.userId == user && m.joinedAt == now
    ensures role.None? ==> m.role == Member
    ensures role.Some? ==> m.role == role.value
  {
    TeamMember(id, team, user, if role.Some? then role.value else Member, now)
  }

  /** The user holds a membership row in the team. */
  predicate IsMember(members: map<nat, TeamMember>, team: nat, user: nat) {
    exists k :: k in members && members[k].teamId == team && members[k].userId == user
  }

  /** The user holds a `leader` membership row in the team. */
  predicate IsLeader(members: map<nat, TeamMember>, team: nat, user: nat) {
    exists k :: k in members && members[k].teamId == team && members[k].userId == user && members[k].role == Leader
  }

  /** The `_team_user_uc` constraint: one row per (team, user) pair. */
  ghost predicate PairsUnique(members: map<nat, TeamMember>) {
    forall a, b ::
      a in members && b in members && members[a].teamId == members[b].teamId && members[a].userId == members[b].userId
      ==> a == b
  }

  /** The `members` relationship: the rows of one team. */
  function MembersOf(members: map<nat, TeamMember>, team: nat): (r: map<nat, TeamMember>)
    ensures forall k :: k in r <==> k in members && members[k].teamId == team
    ensures forall k :: k in r ==> r[k] == members[k]
  {
    map k | k in members && members[k].teamId == team :: members[k]
  }

  /** Deleting a team through the `all, delete-orphan` cascade: the team
      and every one of its membership rows go; nothing else does. */
  function Cascade(members: map<nat, TeamMember>, team: nat): (r: map<nat, TeamMember>)
    ensures forall k :: k in r <==> k in members && members[k].teamId != team
    ensures forall k :: k in r ==> r[k] == members[k]
  {
    map k | k in members && members[k].teamId != team :: members[k]
  }

  /** After the cascade nobody belongs to the deleted team, and every
      membership of another team survives. */
  lemma CascadeLeavesNoOrphans(members: map<nat, TeamMember>, team: nat, user: nat)
    ensures !IsMember(Cascade(members, team), team, user)
    ensures forall t :: t != team ==> (IsMember(Cascade(members, team), t, user) <==> IsMember(members, t, user))
  {
    var r := Cascade(members, team);
    forall t | t != team && IsMember(members, t, user)
      ensures IsMember(r, t, user)
    {
      var k :| k in members && members[k].teamId == t && members[k].userId == user;
      assert k in r;
    }
  }

  class TeamStore {
    var teams: map<nat, Team>
    var members: map<nat, TeamMember>
    var nextTeamId: nat
    var nextMemberId: nat

    /** Row ids are keys below the next id; the pair constraint holds; every
        membership row belongs to a stored team (the foreign key). */
    ghost predicate Valid()
      reads this
    {
      && (forall k :: k in teams ==> k < nextTeamId && teams[k].id == k)
      && (forall k :: k in members ==> k < nextMemberId && members[k].id == k)
      && PairsUnique(members)
      && (forall k :: k in members ==> members[k].teamId in teams)
    }

    constructor ()
      ensures Valid() && teams == map[] && members == map[]
    {
      teams, members := map[], map[];
      nextTeamId, nextMemberId := 0, 0;
    }
  }
}
