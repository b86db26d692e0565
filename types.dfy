/** The records shared by the store, the display screen and the admin console:
    startups, matches, votes, voters and the event settings. */
module Types {

  datatype Option<T> = None | Some(value: T)

  /** A startup as imported from the catalog; matches embed a copy of it. */
  datatype Startup = Startup(id: string, name: string, description: Option<string>)

  datatype VoterType = Judge | Audience

  /** The two contenders of a match, as the strings 'startup1' / 'startup2'. */
  datatype Side = Startup1 | Startup2 {
    function Other(): (o: Side)
      ensures o != this
    {
      if this == Startup1 then Startup2 else Startup1
    }
  }

  /** The stored outcome: 'startup1', 'startup2' or 'tie'. */
  datatype Verdict = Won(side: Side) | Tie

  /** The six phases of a match. */
  datatype MatchPhase = Pending | Selecting | Pitch1 | Pitch2 | Voting | Completed

  /** A pair of per-side counters (judgeVotes, audienceVotes). */
  datatype Tally = Tally(startup1: nat, startup2: nat) {
    function Get(side: Side): (r: nat) {
      if side == Startup1 then startup1 else startup2
    }
  }

  datatype Match = Match(
    id: string,
    startup1: Startup,
    startup2: Startup,
    status: MatchPhase,
    judgeVotes: Tally,
    audienceVotes: Tally,
    judgeWeight: int,
    audienceWeight: int,
    votingEndTime: Option<int>,
    votingDuration: int,
    pitchDuration: int,
    firstPitcher: Option<Side>,
    phaseEndTime: Option<int>,
    winner: Option<Verdict>,
    createdAt: int,
    voteCode: string)
  {
    /** The embedded startup on the given side. */
    function Contender(side: Side): (r: Startup) {
      if side == Startup1 then startup1 else startup2
    }
  }

  /** A vote; the field `oderId` holds the voter's email address. */
  datatype Vote = Vote(
    oderId: string,
    matchId: string,
    startupId: string,
    startupName: string,
    voterType: VoterType,
    timestamp: int)

  /** A node under voters/{emailKey}. A registration writes the whole record;
      casting a vote writes only votes/{matchId} below it, which on an
      unregistered key leaves a node holding nothing but that history. */
  datatype Voter =
    | Registered(email: string, voterType: VoterType, registeredAt: int, votes: map<string, Vote>)
    | HistoryOnly(votes: map<string, Vote>)

  /** The eventSettings node. Every field is optional because the store
      writes single fields (the sign-in counters, a partial update), so a
      stored node may lack any of them. */
  datatype EventSettings = EventSettings(
    judgePassword: Option<string>,
    audiencePassword: Option<string>,
    maxAudienceSignIns: Option<int>,
    maxJudgeSignIns: Option<int>,
    currentAudienceCount: Option<int>,
    currentJudgeCount: Option<int>,
    allowedEmailDomains: Option<seq<string>>)

  /** A node with no field at all: what a single-field write starts from. */
  const NoSettings := EventSettings(None, None, None, None, None, None, None)
}
