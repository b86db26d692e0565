/** The replicated match store: the phase state machine, the weighted-winner
    rule, the one-vote-per-email ledger, capacity-gated voter registration,
    the event settings and the active-match pointer.

    The store is one object whose fields are the top-level paths of the
    database; every exported operation is one atomic read-check-write. */
module Database {
  import opened Types

  /* ------------------------------------------------------------------ */
  /* Email keys                                                          */
  /* ------------------------------------------------------------------ */

  /** `s.replace(/x/g, y)` for one character `x`: every `x` becomes `y`. */
  function ReplaceAll(s: string, x: char, y: char): (r: string)
    ensures |r| == |s|
    ensures forall i :: 0 <= i < |s| ==> r[i] == (if s[i] == x then y else s[i])
  {
    if s == [] then [] else [if s[0] == x then y else s[0]] + ReplaceAll(s[1..], x, y)
  }

  /** The ledger-safe form of an email address: every '.' becomes ','. */
  function EmailKey(email: string): (r: string) {
    ReplaceAll(email, '.', ',')
  }

  /** A key never contains '.', so it is a single path segment. */
  lemma EmailKeyHasNoDot(email: string)
    ensures '.' !in EmailKey(email)
  {
  }

  /** Addresses without a ',' are recovered exactly from their key, so two
      such addresses never share a ledger entry. */
  lemma EmailKeyRoundTrip(email: string)
    requires ',' !in email
    ensures ReplaceAll(EmailKey(email), ',', '.') == email
  {
    var back := ReplaceAll(EmailKey(email), ',', '.');
    forall i | 0 <= i < |email|
      ensures back[i] == email[i]
    {
      assert email[i] != ',';
    }
  }

  lemma EmailKeyInjective(a: string, b: string)
    requires ',' !in a && ',' !in b
    requires EmailKey(a) == EmailKey(b)
    ensures a == b
  {
    EmailKeyRoundTrip(a);
    EmailKeyRoundTrip(b);
  }

  /* ------------------------------------------------------------------ */
  /* Weighted-winner rule                                                */
  /* ------------------------------------------------------------------ */

  /** A side's score by the source's formula
      judgeVotes * judgeWeight / 100 + audienceVotes * audienceWeight / 100,
      computed over the rationals, not in the source's doubles. */
  function ExactScore(m: Match, side: Side): (r: real) {
    (m.judgeVotes.Get(side) as real * m.judgeWeight as real) / 100.0
      + (m.audienceVotes.Get(side) as real * m.audienceWeight as real) / 100.0
  }

  /** The same score scaled by 100, kept in integers. */
  function ScaledScore(m: Match, side: Side): (r: int) {
    m.judgeVotes.Get(side) * m.judgeWeight + m.audienceVotes.Get(side) * m.audienceWeight
  }

  /** The winner of a finished match: the strictly higher score wins, equal
      scores (0-0 included) are a tie. */
  function DecideWinner(m: Match): (r: Verdict) {
    var s1, s2 := ScaledScore(m, Startup1), ScaledScore(m, Startup2);
    if s1 > s2 then Won(Startup1) else if s2 > s1 then Won(Startup2) else Tie
  }

  lemma ScaledScoreIsExact(m: Match, side: Side)
    ensures ExactScore(m, side) == ScaledScore(m, side) as real / 100.0
  {
    var jv, av := m.judgeVotes.Get(side), m.audienceVotes.Get(side);
    assert (jv * m.judgeWeight) as real == jv as real * m.judgeWeight as real;
    assert (av * m.audienceWeight) as real == av as real * m.audienceWeight as real;
  }

  /** Comparing scaled integers decides exactly what comparing the source's
      fractional scores decides, in all three outcomes. */
  lemma WinnerFollowsExactScores(m: Match)
    ensures DecideWinner(m) == Won(Startup1) <==> ExactScore(m, Startup1) > ExactScore(m, Startup2)
    ensures DecideWinner(m) == Won(Startup2) <==> ExactScore(m, Startup2) > ExactScore(m, Startup1)
    ensures DecideWinner(m) == Tie <==> ExactScore(m, Startup1) == ExactScore(m, Startup2)
  {
    ScaledScoreIsExact(m, Startup1);
    ScaledScoreIsExact(m, Startup2);
  }

  /** The match seen from the other side: startups and tallies exchanged. */
  function Mirrored(m: Match): (r: Match) {
    m.(startup1 := m.startup2, startup2 := m.startup1,
       judgeVotes := Tally(m.judgeVotes.startup2, m.judgeVotes.startup1),
       audienceVotes := Tally(m.audienceVotes.startup2, m.audienceVotes.startup1))
  }

  function MirroredVerdict(v: Verdict): (r: Verdict) {
    match v
    case Won(side) => Won(side.Other())
    case Tie => Tie
  }

  /** The rule favours neither side. */
  lemma WinnerIsSymmetric(m: Match)
    ensures DecideWinner(Mirrored(m)) == MirroredVerdict(DecideWinner(m))
  {
  }

  /** Judges 3-1 and audience 1-5 at weights 70/30 give 2.4 against 2.2. */
  lemma WinnerExample()
    ensures forall m: Match ::
      (m.judgeVotes == Tally(3, 1) && m.audienceVotes == Tally(1, 5) &&
       m.judgeWeight == 70 && m.audienceWeight == 30) ==> DecideWinner(m) == Won(Startup1)
  {
  }

  /** Equal tallies on both sides, 0-0 included, give a tie under any
      weights. */
  lemma EqualTalliesAreATie(m: Match)
    requires m.judgeVotes.startup1 == m.judgeVotes.startup2
    requires m.audienceVotes.startup1 == m.audienceVotes.startup2
    ensures DecideWinner(m) == Tie
  {
  }

  /* ------------------------------------------------------------------ */
  /* Phase state machine                                                 */
  /* ------------------------------------------------------------------ */

  const SelectionMillis := 3000

  /** The record a fresh match is stored as. */
  function NewMatch(id: string, startup1: Startup, startup2: Startup, votingDuration: int,
                    pitchDuration: int, judgeWeight: int, audienceWeight: int,
                    now: int, voteCode: string): (r: Match)
  {
    Match(id, startup1, startup2, Pending, Tally(0, 0), Tally(0, 0), judgeWeight, audienceWeight,
          None, votingDuration, pitchDuration, None, None, None, now, voteCode)
  }

  /** startMatch's write: the pitch order is fixed by the coin and the
      selection phase lasts three seconds. */
  function Started(m: Match, now: int, coinBelowHalf: bool): (r: Match) {
    m.(status := Selecting,
       firstPitcher := Some(if coinBelowHalf then Startup1 else Startup2),
       phaseEndTime := Some(now + SelectionMillis))
  }

  /** endVotingInternal's write. */
  function Concluded(m: Match): (r: Match) {
    m.(status := Completed, winner := Some(DecideWinner(m)), phaseEndTime := None)
  }

  /** advancePhase's effect on the stored match. */
  function Advanced(m: Match, now: int): (r: Match) {
    match m.status
    case Selecting => m.(status := Pitch1, phaseEndTime := Some(now + m.pitchDuration * 1000))
    case Pitch1 => m.(status := Pitch2, phaseEndTime := Some(now + m.pitchDuration * 1000))
    case Pitch2 =>
      var votingEnd := now + m.votingDuration * 1000;
      m.(status := Voting, phaseEndTime := Some(votingEnd), votingEndTime := Some(votingEnd))
    case Voting => Concluded(m)
    case Pending => m
    case Completed => m
  }

  function PhaseRank(p: MatchPhase): (r: nat) {
    match p
    case Pending => 0
    case Selecting => 1
    case Pitch1 => 2
    case Pitch2 => 3
    case Voting => 4
    case Completed => 5
  }

  /** One advance moves a started, unfinished match exactly one phase on,
      and leaves pending and completed matches where they are. */
  lemma AdvanceStepsOnePhase(m: Match, now: int)
    ensures m.status == Pending || m.status == Completed ==> Advanced(m, now) == m
    ensures m.status != Pending && m.status != Completed ==>
      PhaseRank(Advanced(m, now).status) == PhaseRank(m.status) + 1
  {
  }

  /** The phase never returns to an earlier one. */
  lemma AdvanceNeverGoesBack(m: Match, now: int)
    ensures PhaseRank(Advanced(m, now).status) >= PhaseRank(m.status)
  {
  }

  /** Apply advancePhase once per timestamp, in order. */
  function AdvancedAt(m: Match, times: seq<int>): (r: Match)
    decreases |times|
  {
    if times == [] then m else AdvancedAt(Advanced(m, times[0]), times[1..])
  }

  lemma {:induction false} AdvancedAtRank(m: Match, times: seq<int>)
    requires m.status != Pending
    ensures var r := PhaseRank(m.status) + |times|;
      PhaseRank(AdvancedAt(m, times).status) == if r < 5 then r else 5
    decreases |times|
  {
    if times != [] {
      AdvanceStepsOnePhase(m, times[0]);
      AdvancedAtRank(Advanced(m, times[0]), times[1..]);
    }
  }

  /** From `selecting`, four advances complete the match and fewer do not. */
  lemma FourAdvancesComplete(m: Match, times: seq<int>)
    requires m.status == Selecting
    ensures AdvancedAt(m, times).status == Completed <==> |times| >= 4
  {
    AdvancedAtRank(m, times);
  }

  /** advancePhase touches only the status, the deadlines and the winner. */
  lemma AdvanceKeepsIdentity(m: Match, now: int)
    ensures var a := Advanced(m, now);
      a.id == m.id && a.startup1 == m.startup1 && a.startup2 == m.startup2 &&
      a.judgeVotes == m.judgeVotes && a.audienceVotes == m.audienceVotes &&
      a.judgeWeight == m.judgeWeight && a.audienceWeight == m.audienceWeight &&
      a.votingDuration == m.votingDuration && a.pitchDuration == m.pitchDuration &&
      a.firstPitcher == m.firstPitcher && a.createdAt == m.createdAt && a.voteCode == m.voteCode
  {
  }

  /** Only the step out of `voting` writes the winner, and it writes the
      weighted rule's verdict while clearing the deadline. */
  lemma WinnerWrittenOnlyWhenVotingEnds(m: Match, now: int)
    ensures Advanced(m, now).winner != m.winner ==> m.status == Voting
    ensures m.status == Voting ==>
      Advanced(m, now).status == Completed && Advanced(m, now).winner == Some(DecideWinner(m)) &&
      Advanced(m, now).phaseEndTime == None
  {
  }

  /** Two clients firing advance on the same voting match store one result:
      the second call finds `completed` and changes nothing. */
  lemma RepeatedEndOfVotingIsIdempotent(m: Match, t1: int, t2: int)
    requires m.status == Voting
    ensures Advanced(Advanced(m, t1), t2) == Advanced(m, t1)
  {
  }

  /** What every stored match satisfies: phase, pitch order, deadline and
      winner agree with each other. */
  ghost predicate WellFormed(m: Match) {
    && (m.status == Pending ==> m.winner.None? && m.firstPitcher.None? && m.phaseEndTime.None?)
    && (m.status != Pending ==> m.firstPitcher.Some?)
    && (m.status == Selecting || m.status == Pitch1 || m.status == Pitch2 || m.status == Voting
        ==> m.phaseEndTime.Some?)
    && (m.status == Completed ==> m.winner.Some? && m.phaseEndTime.None?)
  }

  lemma NewMatchWellFormed(id: string, s1: Startup, s2: Startup, vd: int, pd: int, jw: int, aw: int,
                           now: int, code: string)
    ensures WellFormed(NewMatch(id, s1, s2, vd, pd, jw, aw, now, code))
  {
  }

  lemma StartedWellFormed(m: Match, now: int, coin: bool)
    requires WellFormed(m)
    ensures WellFormed(Started(m, now, coin))
  {
  }

  lemma AdvancedWellFormed(m: Match, now: int)
    requires WellFormed(m)
    ensures WellFormed(Advanced(m, now))
  {
  }

  /** A deliberate gap in the source: startMatch does not check that the
      match is pending, so restarting a finished match gives a `selecting`
      match that still carries its old winner. */
  lemma RestartKeepsOldWinner(m: Match, now: int, coin: bool)
    requires m.status == Completed && m.winner.Some?
    ensures Started(m, now, coin).status == Selecting && Started(m, now, coin).winner == m.winner
  {
  }

  /* ------------------------------------------------------------------ */
  /* Vote ledger and tallies                                             */
  /* ------------------------------------------------------------------ */

  /** One vote counted: only the `{voterType}Votes.{side}` counter grows. */
  function Counted(m: Match, voterType: VoterType, side: Side): (r: Match) {
    if voterType == Judge then
      m.(judgeVotes := if side == Startup1 then m.judgeVotes.(startup1 := m.judgeVotes.startup1 + 1)
                                           else m.judgeVotes.(startup2 := m.judgeVotes.startup2 + 1))
    else
      m.(audienceVotes := if side == Startup1 then m.audienceVotes.(startup1 := m.audienceVotes.startup1 + 1)
                                              else m.audienceVotes.(startup2 := m.audienceVotes.startup2 + 1))
  }

  function Counter(m: Match, voterType: VoterType, side: Side): (r: nat) {
    if voterType == Judge then m.judgeVotes.Get(side) else m.audienceVotes.Get(side)
  }

  /** Exactly one of the four counters goes up, by exactly one; nothing
      else in the match changes. */
  lemma CountedIncrementsOneCounter(m: Match, voterType: VoterType, side: Side)
    ensures forall vt: VoterType, s: Side ::
      Counter(Counted(m, voterType, side), vt, s) == Counter(m, vt, s) + (if vt == voterType && s == side then 1 else 0)
    ensures Counted(m, voterType, side).(judgeVotes := m.judgeVotes, audienceVotes := m.audienceVotes) == m
  {
  }

  /** All four counters of a match added up. */
  function VotesCounted(m: Match): (r: nat) {
    m.judgeVotes.startup1 + m.judgeVotes.startup2 + m.audienceVotes.startup1 + m.audienceVotes.startup2
  }

  /** Counting a ballot raises the match's total by exactly one. */
  lemma CountedAddsOne(m: Match, voterType: VoterType, side: Side)
    ensures VotesCounted(Counted(m, voterType, side)) == VotesCounted(m) + 1
  {
  }

  /** The side a vote counts for: startup1 when the id is startup1's, any
      other id counts for startup2. */
  function SideOf(m: Match, startupId: string): (r: Side) {
    if startupId == m.startup1.id then Startup1 else Startup2
  }

  /** The ledger entries of one match in one tally category. */
  ghost function Ledger(votes: map<(string, string), Vote>, matchId: string, voterType: VoterType,
                        forStartup1: bool, startup1Id: string): (r: set<(string, string)>)
  {
    set k | k in votes && k.0 == matchId && votes[k].voterType == voterType &&
            (votes[k].startupId == startup1Id) == forStartup1
  }

  /** The match's four counters equal the number of ledger entries behind them. */
  ghost predicate TalliesAgree(m: Match, votes: map<(string, string), Vote>) {
    && m.judgeVotes.startup1 == |Ledger(votes, m.id, Judge, true, m.startup1.id)|
    && m.judgeVotes.startup2 == |Ledger(votes, m.id, Judge, false, m.startup1.id)|
    && m.audienceVotes.startup1 == |Ledger(votes, m.id, Audience, true, m.startup1.id)|
    && m.audienceVotes.startup2 == |Ledger(votes, m.id, Audience, false, m.startup1.id)|
  }

  lemma {:induction false} LedgerAfterAdd(votes: map<(string, string), Vote>, key: (string, string), v: Vote,
                        matchId: string, voterType: VoterType, forStartup1: bool, startup1Id: string)
    requires key !in votes
    ensures var hit := key.0 == matchId && v.voterType == voterType && (v.startupId == startup1Id) == forStartup1;
      |Ledger(votes[key := v], matchId, voterType, forStartup1, startup1Id)|
        == |Ledger(votes, matchId, voterType, forStartup1, startup1Id)| + (if hit then 1 else 0)
  {
    var before := Ledger(votes, matchId, voterType, forStartup1, startup1Id);
    var after := Ledger(votes[key := v], matchId, voterType, forStartup1, startup1Id);
    if key.0 == matchId && v.voterType == voterType && (v.startupId == startup1Id) == forStartup1 {
      assert after == before + {key};
    } else {
      assert after == before;
    }
  }

  /** The ledger without every entry of one match: the entries kept are
      unchanged, none of them belongs to the match, and the ledger shrinks
      by exactly the match's entries (so every other entry is kept). */
  function WithoutMatch(votes: map<(string, string), Vote>, matchId: string): (r: map<(string, string), Vote>)
    ensures forall k | k in r :: k in votes && r[k] == votes[k]
    ensures MatchLedger(r, matchId) == {}
    ensures |r| == |votes| - |MatchLedger(votes, matchId)|
  {
    var r := map k | k in votes && k.0 != matchId :: votes[k];
    assert votes.Keys == r.Keys + MatchLedger(votes, matchId);
    assert r.Keys * MatchLedger(votes, matchId) == {};
    r
  }

  lemma {:induction false} LedgerAfterRemove(votes: map<(string, string), Vote>, removed: string,
                           matchId: string, voterType: VoterType, forStartup1: bool, startup1Id: string)
    requires matchId != removed
    ensures Ledger(WithoutMatch(votes, removed), matchId, voterType, forStartup1, startup1Id)
         == Ledger(votes, matchId, voterType, forStartup1, startup1Id)
  {
    var w := WithoutMatch(votes, removed);
    assert forall k :: k in Ledger(w, matchId, voterType, forStartup1, startup1Id)
                   <==> k in Ledger(votes, matchId, voterType, forStartup1, startup1Id);
  }

  /** Every ledger entry of a match, whatever its category. */
  ghost function MatchLedger(votes: map<(string, string), Vote>, matchId: string): (r: set<(string, string)>) {
    set k | k in votes && k.0 == matchId
  }

  /** A match's ledger entries of one voter type. */
  ghost function OfType(votes: map<(string, string), Vote>, matchId: string, voterType: VoterType): (r: set<(string, string)>) {
    set k | k in votes && k.0 == matchId && votes[k].voterType == voterType
  }

  /** The entries of one voter type split into those for startup1 and the rest. */
  lemma TypeSplitsBySide(votes: map<(string, string), Vote>, matchId: string, voterType: VoterType, startup1Id: string)
    ensures |OfType(votes, matchId, voterType)|
         == |Ledger(votes, matchId, voterType, true, startup1Id)| + |Ledger(votes, matchId, voterType, false, startup1Id)|
  {
    var a := Ledger(votes, matchId, voterType, true, startup1Id);
    var b := Ledger(votes, matchId, voterType, false, startup1Id);
    assert a * b == {};
    assert OfType(votes, matchId, voterType) == a + b;
  }

  /** A match's ledger splits into its judge and its audience entries. */
  lemma LedgerSplitsByType(votes: map<(string, string), Vote>, matchId: string)
    ensures |MatchLedger(votes, matchId)| == |OfType(votes, matchId, Judge)| + |OfType(votes, matchId, Audience)|
  {
    var judges, audience := OfType(votes, matchId, Judge), OfType(votes, matchId, Audience);
    assert judges * audience == {};
    assert MatchLedger(votes, matchId) == judges + audience;
  }

  /** The four categories split a match's ledger, so the four counters add
      up to the number of votes recorded for the match. */
  lemma TalliesSumToLedger(m: Match, votes: map<(string, string), Vote>)
    requires TalliesAgree(m, votes)
    ensures VotesCounted(m) == |MatchLedger(votes, m.id)|
  {
    TypeSplitsBySide(votes, m.id, Judge, m.startup1.id);
    TypeSplitsBySide(votes, m.id, Audience, m.startup1.id);
    LedgerSplitsByType(votes, m.id);
  }

  /** A ledger entry stored under its own match id and email key. */
  ghost predicate LedgerEntryKeyed(votes: map<(string, string), Vote>, k: (string, string))
    requires k in votes
  {
    votes[k].matchId == k.0 && EmailKey(votes[k].oderId) == k.1
  }

  /** A voter's history after one vote: an unregistered key gets a node that
      holds only the history. */
  function WithHistory(voters: map<string, Voter>, key: string, matchId: string, v: Vote): (r: Voter) {
    if key in voters then voters[key].(votes := voters[key].votes[matchId := v])
    else HistoryOnly(map[matchId := v])
  }

  /** A stored match: kept under its own id, well formed, and counted by its ledger. */
  ghost predicate StoredMatchOk(matches: map<string, Match>, votes: map<(string, string), Vote>, id: string)
    requires id in matches
  {
    matches[id].id == id && WellFormed(matches[id]) && TalliesAgree(matches[id], votes)
  }

  /** The store's invariant over its match and ledger maps. */
  ghost predicate Consistent(matches: map<string, Match>, votes: map<(string, string), Vote>) {
    && (forall k | k in votes :: k.0 in matches && LedgerEntryKeyed(votes, k))
    && (forall id {:trigger StoredMatchOk(matches, votes, id)} | id in matches :: StoredMatchOk(matches, votes, id))
  }

  lemma ConsistentAfterCreate(matches: map<string, Match>, votes: map<(string, string), Vote>, m: Match)
    requires Consistent(matches, votes)
    requires m.id !in matches && WellFormed(m)
    requires m.judgeVotes == Tally(0, 0) && m.audienceVotes == Tally(0, 0)
    ensures Consistent(matches[m.id := m], votes)
  {
    forall vt: VoterType, f: bool
      ensures Ledger(votes, m.id, vt, f, m.startup1.id) == {}
    {
      assert forall k | k in votes :: k.0 != m.id;
    }
    var after := matches[m.id := m];
    forall id | id in after
      ensures StoredMatchOk(after, votes, id)
    {
      if id != m.id {
        assert StoredMatchOk(matches, votes, id);
      }
    }
  }

  /** Replacing a match by one with the same identity and counters keeps the invariant. */
  lemma ConsistentAfterReplace(matches: map<string, Match>, votes: map<(string, string), Vote>, id: string, m: Match)
    requires Consistent(matches, votes)
    requires id in matches && m.id == id && WellFormed(m)
    requires m.startup1 == matches[id].startup1
    requires m.judgeVotes == matches[id].judgeVotes && m.audienceVotes == matches[id].audienceVotes
    ensures Consistent(matches[id := m], votes)
  {
    var after := matches[id := m];
    forall i | i in after
      ensures StoredMatchOk(after, votes, i)
    {
      assert StoredMatchOk(matches, votes, i);
    }
  }

  lemma ConsistentAfterDelete(matches: map<string, Match>, votes: map<(string, string), Vote>, id: string)
    requires Consistent(matches, votes)
    ensures Consistent(matches - {id}, WithoutMatch(votes, id))
  {
    var after, remaining := matches - {id}, WithoutMatch(votes, id);
    forall i | i in after
      ensures StoredMatchOk(after, remaining, i)
    {
      assert StoredMatchOk(matches, votes, i);
      var s1 := matches[i].startup1.id;
      LedgerAfterRemove(votes, id, i, Judge, true, s1);
      LedgerAfterRemove(votes, id, i, Judge, false, s1);
      LedgerAfterRemove(votes, id, i, Audience, true, s1);
      LedgerAfterRemove(votes, id, i, Audience, false, s1);
    }
    forall k | k in remaining
      ensures k.0 in after && LedgerEntryKeyed(remaining, k)
    {
      assert LedgerEntryKeyed(votes, k);
    }
  }

  /** Recording a fresh ledger entry and counting it once keeps the invariant. */
  lemma ConsistentAfterVote(matches: map<string, Match>, votes: map<(string, string), Vote>,
                            key: (string, string), v: Vote)
    requires Consistent(matches, votes)
    requires key !in votes && key.0 in matches
    requires v.matchId == key.0 && EmailKey(v.oderId) == key.1
    ensures var m := matches[key.0];
      Consistent(matches[key.0 := Counted(m, v.voterType, SideOf(m, v.startupId))], votes[key := v])
  {
    var m := matches[key.0];
    var after := matches[key.0 := Counted(m, v.voterType, SideOf(m, v.startupId))];
    var newVotes := votes[key := v];
    CountedIncrementsOneCounter(m, v.voterType, SideOf(m, v.startupId));
    forall i | i in after
      ensures StoredMatchOk(after, newVotes, i)
    {
      assert StoredMatchOk(matches, votes, i);
      var s1 := matches[i].startup1.id;
      LedgerAfterAdd(votes, key, v, i, Judge, true, s1);
      LedgerAfterAdd(votes, key, v, i, Judge, false, s1);
      LedgerAfterAdd(votes, key, v, i, Audience, true, s1);
      LedgerAfterAdd(votes, key, v, i, Audience, false, s1);
    }
    forall k | k in newVotes
      ensures k.0 in after && LedgerEntryKeyed(newVotes, k)
    {
      if k != key {
        assert LedgerEntryKeyed(votes, k);
      }
    }
  }

  /* ------------------------------------------------------------------ */
  /* Event settings                                                      */
  /* ------------------------------------------------------------------ */

  const DefaultSettings := EventSettings(
    Some("judge123"), Some("audience123"), Some(100), Some(10), Some(0), Some(0),
    Some([".com", ".ai", ".edu", ".org", ".net", ".io", ".co"]))

  /** What getEventSettings returns: the stored node, or the defaults when
      nothing is stored. */
  function EffectiveSettings(stored: Option<EventSettings>): (r: EventSettings) {
    if stored.None? then DefaultSettings else stored.value
  }

  /** JavaScript's `count >= max`: false whenever an operand is missing. */
  predicate AtLeast(count: Option<int>, max: Option<int>) {
    count.Some? && max.Some? && count.value >= max.value
  }

  function CountOf(s: EventSettings, voterType: VoterType): (r: Option<int>) {
    if voterType == Judge then s.currentJudgeCount else s.currentAudienceCount
  }

  function MaxOf(s: EventSettings, voterType: VoterType): (r: Option<int>) {
    if voterType == Judge then s.maxJudgeSignIns else s.maxAudienceSignIns
  }

  /** The sign-in cap check of registerVoter for one voter type. */
  predicate CapacityReached(s: EventSettings, voterType: VoterType) {
    AtLeast(CountOf(s, voterType), MaxOf(s, voterType))
  }

  function CapacityMessage(voterType: VoterType): (r: string) {
    if voterType == Audience then "Maximum audience sign-ins reached" else "Maximum judge sign-ins reached"
  }

  /** A counter as the source reads it: `(value || 0)`. */
  function ValueOrZero(count: Option<int>): (r: int) {
    if count.Some? then count.value else 0
  }

  function WithCount(s: EventSettings, voterType: VoterType, count: int): (r: EventSettings) {
    if voterType == Judge then s.(currentJudgeCount := Some(count)) else s.(currentAudienceCount := Some(count))
  }

  /** The node after registerVoter writes eventSettings/{countField}: the
      stored counter (missing reads as 0) plus one, written into the stored
      node, or into an empty node when nothing is stored. */
  function WithCountBumped(stored: Option<EventSettings>, voterType: VoterType): (r: EventSettings) {
    var node := if stored.None? then NoSettings else stored.value;
    WithCount(node, voterType, ValueOrZero(CountOf(node, voterType)) + 1)
  }

  /** The registering type's counter, read as registerVoter reads it, goes
      up by one; the other type's counter is read the same as before. */
  lemma BumpCountsOneSignIn(stored: Option<EventSettings>, voterType: VoterType, other: VoterType)
    requires other != voterType
    ensures ValueOrZero(CountOf(WithCountBumped(stored, voterType), voterType))
         == ValueOrZero(CountOf(EffectiveSettings(stored), voterType)) + 1
    ensures ValueOrZero(CountOf(WithCountBumped(stored, voterType), other))
         == ValueOrZero(CountOf(EffectiveSettings(stored), other))
  {
  }

  /** updateEventSettings merges: every field the patch carries replaces the
      stored one, the rest are kept. */
  function Pick<T>(patch: Option<T>, stored: Option<T>): (r: Option<T>) {
    if patch.Some? then patch else stored
  }

  function MergeSettings(stored: Option<EventSettings>, patch: EventSettings): (r: EventSettings)
    ensures patch != NoSettings ==> r != NoSettings
  {
    var s := if stored.None? then NoSettings else stored.value;
    EventSettings(
      Pick(patch.judgePassword, s.judgePassword),
      Pick(patch.audiencePassword, s.audiencePassword),
      Pick(patch.maxAudienceSignIns, s.maxAudienceSignIns),
      Pick(patch.maxJudgeSignIns, s.maxJudgeSignIns),
      Pick(patch.currentAudienceCount, s.currentAudienceCount),
      Pick(patch.currentJudgeCount, s.currentJudgeCount),
      Pick(patch.allowedEmailDomains, s.allowedEmailDomains))
  }

  /** `update(ref, patch)` on the settings node: an empty patch writes
      nothing (in particular it creates no node); any other patch merges. */
  function UpdatedSettings(stored: Option<EventSettings>, patch: EventSettings): (r: Option<EventSettings>)
    ensures patch == NoSettings ==> r == stored
    ensures patch != NoSettings ==> r.Some? && r.value != NoSettings
  {
    if patch == NoSettings then stored else Some(MergeSettings(stored, patch))
  }

  /** Two updates in a row are one update with the second patch laid over
      the first. */
  lemma UpdatesCompose(stored: Option<EventSettings>, first: EventSettings, second: EventSettings)
    ensures UpdatedSettings(UpdatedSettings(stored, first), second)
         == UpdatedSettings(stored, MergeSettings(Some(first), second))
  {
    var both := MergeSettings(Some(first), second);
    if first == NoSettings {
      assert both == second;
    } else if second == NoSettings {
      assert both == first;
    }
  }

  /** Repeating an update changes nothing more. */
  lemma UpdateIsIdempotent(stored: Option<EventSettings>, patch: EventSettings)
    ensures UpdatedSettings(UpdatedSettings(stored, patch), patch) == UpdatedSettings(stored, patch)
  {
    UpdatesCompose(stored, patch, patch);
    assert MergeSettings(Some(patch), patch) == patch;
  }

  /** The patch resetVoterCounts writes. */
  const ZeroCounts := NoSettings.(currentAudienceCount := Some(0), currentJudgeCount := Some(0))

  /** The settings node after `n` registration attempts of new emails of one
      type, starting from a store with no settings node, as registerVoter
      is written: a refused attempt writes nothing, an admitted one writes
      the bumped counter field alone. */
  function AttemptsAsWritten(n: nat, voterType: VoterType): (r: Option<EventSettings>) {
    if n == 0 then None
    else
      var before := AttemptsAsWritten(n - 1, voterType);
      if CapacityReached(EffectiveSettings(before), voterType) then before
      else Some(WithCountBumped(before, voterType))
  }

  /** The counter write as evidently intended: the increment goes into the
      settings registerVoter checked against, so a missing node's default
      caps are stored along with the counter. */
  function WithCountBumpedFixed(stored: Option<EventSettings>, voterType: VoterType): (r: EventSettings) {
    var effective := EffectiveSettings(stored);
    WithCount(effective, voterType, ValueOrZero(CountOf(effective, voterType)) + 1)
  }

  function AttemptsFixed(n: nat, voterType: VoterType): (r: Option<EventSettings>) {
    if n == 0 then None
    else
      var before := AttemptsFixed(n - 1, voterType);
      if CapacityReached(EffectiveSettings(before), voterType) then before
      else Some(WithCountBumpedFixed(before, voterType))
  }

  /** As written, on a store whose settings were never saved, the first
      sign-in stores a node without caps, after which `count >= undefined`
      is false: every attempt is admitted, so the eleventh judge gets in
      although the default cap is ten. */
  lemma {:induction false} JudgeCapLostAsWritten(n: nat)
    ensures n > 0 ==> AttemptsAsWritten(n, Judge).Some? &&
                      AttemptsAsWritten(n, Judge).value.maxJudgeSignIns.None?
    ensures ValueOrZero(CountOf(EffectiveSettings(AttemptsAsWritten(n, Judge)), Judge)) == n
  {
    if n > 0 {
      JudgeCapLostAsWritten(n - 1);
    }
  }

  lemma ElevenJudgesAdmittedAsWritten()
    ensures ValueOrZero(CountOf(EffectiveSettings(AttemptsAsWritten(11, Judge)), Judge)) == 11
    ensures MaxOf(DefaultSettings, Judge) == Some(10)
  {
    JudgeCapLostAsWritten(11);
  }

  /** With the fix, the default cap of ten judges holds however many
      attempts are made. */
  lemma {:induction false} JudgeCapKeptWhenFixed(n: nat)
    ensures MaxOf(EffectiveSettings(AttemptsFixed(n, Judge)), Judge) == Some(10)
    ensures CountOf(EffectiveSettings(AttemptsFixed(n, Judge)), Judge) == Some(if n < 10 then n else 10)
  {
    if n > 0 {
      JudgeCapKeptWhenFixed(n - 1);
    }
  }

  /* ------------------------------------------------------------------ */
  /* The store                                                           */
  /* ------------------------------------------------------------------ */

  const MatchNotFound := "Match not found"

  /** The result of an operation that throws when the match is missing. */
  datatype Outcome = Done | Failed(message: string)

  /** registerVoter's `{ success, error? }`. */
  datatype SignIn = SignIn(success: bool, error: Option<string>)

  class Store {
    var matches: map<string, Match>
    var votes: map<(string, string), Vote>
    var voters: map<string, Voter>
    var settings: Option<EventSettings>
    var activeMatch: Option<string>

    /** Ledger entries belong to stored matches and sit under their own
        match id and email key; every match is well formed, stored under its
        own id, and its counters equal its ledger counts. A settings node
        is either absent or holds at least one field, as the database keeps
        no node without children. */
    ghost predicate Valid()
      reads this
    {
      && Consistent(matches, votes)
      && settings != Some(NoSettings)
    }

    constructor ()
      ensures Valid()
      ensures matches == map[] && votes == map[] && voters == map[]
      ensures settings == None && activeMatch == None
    {
      matches, votes, voters := map[], map[], map[];
      settings, activeMatch := None, None;
    }

    /** createMatch: stores a pending match with empty tallies under the
        fresh key `id` (the key `push` hands out). */
    method CreateMatch(id: string, startup1: Startup, startup2: Startup, now: int, voteCode: string,
                       votingDuration: int := 60, pitchDuration: int := 90,
                       judgeWeight: int := 70, audienceWeight: int := 30) returns (r: string)
      requires Valid()
      requires id !in matches
      modifies this
      ensures Valid()
      ensures r == id
      ensures matches == old(matches)[id := NewMatch(id, startup1, startup2, votingDuration, pitchDuration,
                                                     judgeWeight, audienceWeight, now, voteCode)]
      ensures matches[id].status == Pending && matches[id].winner.None?
      ensures matches[id].firstPitcher.None? && matches[id].phaseEndTime.None?
      ensures matches[id].judgeVotes == Tally(0, 0) && matches[id].audienceVotes == Tally(0, 0)
      ensures votes == old(votes) && voters == old(voters)
      ensures settings == old(settings) && activeMatch == old(activeMatch)
    {
      var m := NewMatch(id, startup1, startup2, votingDuration, pitchDuration,
                        judgeWeight, audienceWeight, now, voteCode);
      NewMatchWellFormed(id, startup1, startup2, votingDuration, pitchDuration,
                         judgeWeight, audienceWeight, now, voteCode);
      ConsistentAfterCreate(matches, votes, m);
      matches := matches[id := m];
      r := id;
    }

    /** startMatch: throws "Match not found" for a missing id; otherwise
        moves the match to `selecting` whatever its phase. */
    method StartMatch(matchId: string, now: int, coinBelowHalf: bool) returns (r: Outcome)
      requires Valid()
      modifies this
      ensures Valid()
      ensures matchId !in old(matches) ==> r == Failed(MatchNotFound) && matches == old(matches)
      ensures matchId in old(matches) ==>
        r == Done && matches == old(matches)[matchId := Started(old(matches)[matchId], now, coinBelowHalf)]
      ensures matchId in old(matches) ==>
        matches[matchId].status == Selecting && matches[matchId].phaseEndTime == Some(now + 3000) &&
        (matches[matchId].firstPitcher == Some(Startup1) || matches[matchId].firstPitcher == Some(Startup2))
      ensures votes == old(votes) && voters == old(voters)
      ensures settings == old(settings) && activeMatch == old(activeMatch)
    {
      if matchId !in matches {
        return Failed(MatchNotFound);
      }
      var m := matches[matchId];
      assert StoredMatchOk(matches, votes, matchId);
      StartedWellFormed(m, now, coinBelowHalf);
      ConsistentAfterReplace(matches, votes, matchId, Started(m, now, coinBelowHalf));
      matches := matches[matchId := Started(m, now, coinBelowHalf)];
      r := Done;
    }

    /** advancePhase: one step of the phase machine; `pending` and
        `completed` are left as they are. */
    method AdvancePhase(matchId: string, now: int) returns (r: Outcome)
      requires Valid()
      modifies this
      ensures Valid()
      ensures matchId !in old(matches) ==> r == Failed(MatchNotFound) && matches == old(matches)
      ensures matchId in old(matches) ==>
        r == Done && matches == old(matches)[matchId := Advanced(old(matches)[matchId], now)]
      ensures votes == old(votes) && voters == old(voters)
      ensures settings == old(settings) && activeMatch == old(activeMatch)
    {
      if matchId !in matches {
        return Failed(MatchNotFound);
      }
      var m := matches[matchId];
      assert StoredMatchOk(matches, votes, matchId);
      AdvancedWellFormed(m, now);
      AdvanceKeepsIdentity(m, now);
      ConsistentAfterReplace(matches, votes, matchId, Advanced(m, now));
      match m.status {
        case Selecting =>
          matches := matches[matchId := m.(status := Pitch1, phaseEndTime := Some(now + m.pitchDuration * 1000))];
        case Pitch1 =>
          matches := matches[matchId := m.(status := Pitch2, phaseEndTime := Some(now + m.pitchDuration * 1000))];
        case Pitch2 =>
          var votingEndTime := now + m.votingDuration * 1000;
          matches := matches[matchId := m.(status := Voting, phaseEndTime := Some(votingEndTime),
                                           votingEndTime := Some(votingEndTime))];
        case Voting =>
          EndVotingInternal(matchId, m);
        case Pending =>
        case Completed =>
      }
      r := Done;
    }

    /** endVotingInternal: writes `completed`, the weighted winner and no
        deadline over the match read by the caller. */
    method EndVotingInternal(matchId: string, m: Match)
      requires Valid()
      requires matchId in matches && matches[matchId] == m && m.status == Voting
      modifies this
      ensures Valid()
      ensures matches == old(matches)[matchId := Concluded(m)]
      ensures votes == old(votes) && voters == old(voters)
      ensures settings == old(settings) && activeMatch == old(activeMatch)
    {
      var s1 := m.judgeVotes.startup1 * m.judgeWeight + m.audienceVotes.startup1 * m.audienceWeight;
      var s2 := m.judgeVotes.startup2 * m.judgeWeight + m.audienceVotes.startup2 * m.audienceWeight;
      assert StoredMatchOk(matches, votes, matchId);
      WinnerWrittenOnlyWhenVotingEnds(m, 0);
      AdvancedWellFormed(m, 0);
      ConsistentAfterReplace(matches, votes, matchId, Concluded(m));
      var winner: Verdict;
      if s1 > s2 {
        winner := Won(Startup1);
      } else if s2 > s1 {
        winner := Won(Startup2);
      } else {
        winner := Tie;
      }
      matches := matches[matchId := m.(status := Completed, winner := Some(winner), phaseEndTime := None)];
    }

    /** getMatch. */
    method GetMatch(matchId: string) returns (r: Option<Match>)
      ensures r.Some? <==> matchId in matches
      ensures r.Some? ==> r.value == matches[matchId]
    {
      r := if matchId in matches then Some(matches[matchId]) else None;
    }

    /** getMatchByCode: scans the matches for one whose vote code is `code`. */
    method GetMatchByCode(code: string) returns (r: Option<Match>)
      ensures r.Some? ==> r.value in matches.Values && r.value.voteCode == code
      ensures r.None? ==> forall id | id in matches :: matches[id].voteCode != code
    {
      var unseen := matches.Keys;
      while unseen != {}
        invariant unseen <= matches.Keys
        invariant forall id | id in matches && id !in unseen :: matches[id].voteCode != code
        decreases unseen
      {
        var id :| id in unseen;
        if matches[id].voteCode == code {
          return Some(matches[id]);
        }
        unseen := unseen - {id};
      }
      r := None;
    }

    /** updateMatchWeights: overwrites both weights in any phase; a winner
        already stored is not recomputed. */
    method UpdateMatchWeights(matchId: string, judgeWeight: int, audienceWeight: int)
      requires Valid()
      modifies this
      ensures Valid()
      ensures matchId in old(matches) ==>
        matches == old(matches)[matchId := old(matches)[matchId].(judgeWeight := judgeWeight,
                                                                  audienceWeight := audienceWeight)]
      ensures matchId !in old(matches) ==> matches == old(matches)
      ensures votes == old(votes) && voters == old(voters)
      ensures settings == old(settings) && activeMatch == old(activeMatch)
    {
      if matchId in matches {
        var m := matches[matchId].(judgeWeight := judgeWeight, audienceWeight := audienceWeight);
        assert StoredMatchOk(matches, votes, matchId);
        ConsistentAfterReplace(matches, votes, matchId, m);
        matches := matches[matchId := m];
      }
    }

    /** deleteMatch: removes the match and its whole ledger; the active
        pointer and the voters' histories are left alone. */
    method DeleteMatch(matchId: string)
      requires Valid()
      modifies this
      ensures Valid()
      ensures matches == old(matches) - {matchId}
      ensures votes == WithoutMatch(old(votes), matchId)
      ensures voters == old(voters) && settings == old(settings) && activeMatch == old(activeMatch)
    {
      ConsistentAfterDelete(matches, votes, matchId);
      matches := matches - {matchId};
      votes := WithoutMatch(votes, matchId);
    }

    /** castVote: refuses (false, nothing written) when this email already
        voted in the match or the match is not open for voting; otherwise
        records the vote in the ledger and the voter's history and counts it
        once. */
    method CastVote(matchId: string, startupId: string, startupName: string, voterType: VoterType,
                    voterEmail: string, now: int) returns (ok: bool)
      requires Valid()
      modifies this
      ensures Valid()
      ensures ok <==> (matchId, EmailKey(voterEmail)) !in old(votes) &&
                      matchId in old(matches) && old(matches)[matchId].status == Voting
      ensures !ok ==> matches == old(matches) && votes == old(votes) && voters == old(voters)
      ensures ok ==>
        var key := EmailKey(voterEmail);
        var vote := Vote(voterEmail, matchId, startupId, startupName, voterType, now);
        var m := old(matches)[matchId];
        && votes == old(votes)[(matchId, key) := vote]
        && voters == old(voters)[key := WithHistory(old(voters), key, matchId, vote)]
        && voters[key].votes[matchId] == vote
        && matches == old(matches)[matchId := Counted(m, voterType, SideOf(m, startupId))]
      ensures settings == old(settings) && activeMatch == old(activeMatch)
    {
      var emailKey := EmailKey(voterEmail);
      if (matchId, emailKey) in votes {
        return false;
      }
      var found := GetMatch(matchId);
      if found.None? || found.value.status != Voting {
        return false;
      }
      var m := found.value;
      var vote := Vote(voterEmail, matchId, startupId, startupName, voterType, now);
      var side := if startupId == m.startup1.id then Startup1 else Startup2;
      ConsistentAfterVote(matches, votes, (matchId, emailKey), vote);
      votes, voters, matches :=
        votes[(matchId, emailKey) := vote],
        voters[emailKey := WithHistory(voters, emailKey, matchId, vote)],
        matches[matchId := Counted(m, voterType, side)];
      ok := true;
    }

    /** hasVoted: whether the ledger holds a vote of this email in the match. */
    method HasVoted(matchId: string, voterEmail: string) returns (r: bool)
      ensures r <==> (matchId, EmailKey(voterEmail)) in votes
    {
      r := (matchId, EmailKey(voterEmail)) in votes;
    }

    /** registerVoter: a known email signs in again unchanged; a new one is
        refused when its type's counter has reached its cap, and otherwise
        registered with that type's counter bumped. */
    method RegisterVoter(email: string, voterType: VoterType, now: int) returns (r: SignIn)
      requires Valid()
      modifies this
      ensures Valid()
      ensures var key := EmailKey(email);
        if key in old(voters) then
          r == SignIn(true, None) && voters == old(voters) && settings == old(settings)
        else if CapacityReached(EffectiveSettings(old(settings)), voterType) then
          r == SignIn(false, Some(CapacityMessage(voterType))) && voters == old(voters) && settings == old(settings)
        else
          r == SignIn(true, None) &&
          voters == old(voters)[key := Registered(email, voterType, now, map[])] &&
          settings == Some(WithCountBumped(old(settings), voterType))
      ensures matches == old(matches) && votes == old(votes) && activeMatch == old(activeMatch)
    {
      var emailKey := EmailKey(email);
      if emailKey in voters {
        return SignIn(true, None);
      }
      var current := GetEventSettings();
      if voterType == Audience && AtLeast(current.currentAudienceCount, current.maxAudienceSignIns) {
        return SignIn(false, Some("Maximum audience sign-ins reached"));
      }
      if voterType == Judge && AtLeast(current.currentJudgeCount, current.maxJudgeSignIns) {
        return SignIn(false, Some("Maximum judge sign-ins reached"));
      }
      voters := voters[emailKey := Registered(email, voterType, now, map[])];
      var node := if settings.None? then NoSettings else settings.value;
      var count := CountOf(node, voterType);
      settings := Some(WithCount(node, voterType, (if count.Some? then count.value else 0) + 1));
      r := SignIn(true, None);
    }

    /** getVoter. */
    method GetVoter(email: string) returns (r: Option<Voter>)
      ensures r.Some? <==> EmailKey(email) in voters
      ensures r.Some? ==> r.value == voters[EmailKey(email)]
    {
      var key := EmailKey(email);
      r := if key in voters then Some(voters[key]) else None;
    }

    /** getEventSettings: the stored node, or the defaults. */
    method GetEventSettings() returns (s: EventSettings)
      ensures settings.None? ==> s == DefaultSettings
      ensures settings.Some? ==> s == settings.value
    {
      if settings.None? {
        s := DefaultSettings;
      } else {
        s := settings.value;
      }
    }

    /** updateEventSettings: merges the given fields, without validation;
        an empty patch writes nothing. */
    method UpdateEventSettings(patch: EventSettings)
      requires Valid()
      modifies this
      ensures Valid()
      ensures settings == UpdatedSettings(old(settings), patch)
      ensures matches == old(matches) && votes == old(votes) && voters == old(voters)
      ensures activeMatch == old(activeMatch)
    {
      if patch != NoSettings {
        settings := Some(MergeSettings(settings, patch));
      }
    }

    /** resetVoterCounts: zeroes both sign-in counters and removes every
        voter; the vote ledger is kept. */
    method ResetVoterCounts()
      requires Valid()
      modifies this
      ensures Valid()
      ensures settings == Some(MergeSettings(old(settings), ZeroCounts))
      ensures settings.value.currentJudgeCount == Some(0) && settings.value.currentAudienceCount == Some(0)
      ensures voters == map[]
      ensures matches == old(matches) && votes == old(votes) && activeMatch == old(activeMatch)
    {
      settings := Some(MergeSettings(settings, ZeroCounts));
      voters := map[];
    }

    /** setActiveMatch: an unconditional write of the pointer. */
    method SetActiveMatch(matchId: Option<string>)
      requires Valid()
      modifies this
      ensures Valid()
      ensures activeMatch == matchId
      ensures matches == old(matches) && votes == old(votes) && voters == old(voters)
      ensures settings == old(settings)
    {
      activeMatch := matchId;
    }

    /** getActiveMatch. */
    method GetActiveMatch() returns (r: Option<string>)
      ensures r == activeMatch
    {
      r := activeMatch;
    }
  }

  /** A second vote of the same email in the same match is refused and
      leaves the tallies as the first vote left them. */
  method SecondVoteRefused(store: Store, matchId: string, startupId: string, name: string,
                           voterType: VoterType, email: string, now: int, later: int)
      returns (first: bool, second: bool)
    requires store.Valid()
    modifies store
    ensures store.Valid()
    ensures !second
    ensures first ==>
      && matchId in old(store.matches) && matchId in store.matches
      && VotesCounted(store.matches[matchId]) == VotesCounted(old(store.matches[matchId])) + 1
  {
    first := store.CastVote(matchId, startupId, name, voterType, email, now);
    if first {
      var m := old(store.matches[matchId]);
      CountedAddsOne(m, voterType, SideOf(m, startupId));
    }
    second := store.CastVote(matchId, startupId, name, voterType, email, later);
  }
}
