/** The records the client exchanges with the server: poker sessions and
    their votes, and teams and their members. Statuses arrive already typed
    as one of the four names the response types declare. */
module Domain {
  import opened Basics

  /** The life-cycle stage of a poker session. */
  datatype Status = Waiting | Voting | Revealed | Completed

  /** A participant as embedded in sessions and votes. */
  datatype UserRef = UserRef(id: string, firstName: string, lastName: string)

  /** One participant's vote; the server ties every vote to one user. */
  datatype Vote = Vote(id: string, user: UserRef, voteValue: string, isRevealed: bool)

  /** A poker session. `createdBy` may be missing from a payload, which the
      client reads through optional chaining. */
  datatype Session = Session(
    id: string,
    teamId: string,
    storyTitle: string,
    storyDescription: string,
    status: Status,
    createdBy: Option<UserRef>,
    votes: seq<Vote>,
    finalEstimate: Option<string>,
    createdAt: string)

  datatype MemberStatus = Pending | Active | Rejected

  datatype TeamMember = TeamMember(
    id: string,
    email: string,
    firstName: string,
    lastName: string,
    roles: seq<string>,
    role: string,
    status: MemberStatus)

  datatype Team = Team(
    id: string,
    name: string,
    description: string,
    createdBy: string,
    inviteCode: string,
    members: seq<TeamMember>,
    createdAt: string)
}
