/** The admin console: the form that creates a match from two catalog
    startups, the per-match buttons (start, skip phase, set active, delete)
    and the winner line, driving the store. */
module Admin {
  import opened Types
  import opened Database
  import Display

  /* ------------------------------------------------------------------ */
  /* Pure helpers                                                        */
  /* ------------------------------------------------------------------ */

  /** `startups.find(s => s.id === id)`: the first startup with that id. */
  function FindStartup(startups: seq<Startup>, id: string): (r: Option<Startup>)
    ensures r.None? <==> forall i :: 0 <= i < |startups| ==> startups[i].id != id
    ensures r.Some? ==> exists i :: (0 <= i < |startups| && startups[i] == r.value &&
      r.value.id == id && forall j :: 0 <= j < i ==> startups[j].id != id)
    decreases |startups|
  {
    if startups == [] then None
    else if startups[0].id == id then Some(startups[0])
    else
      var rest := FindStartup(startups[1..], id);
      assert forall i :: 1 <= i < |startups| ==> startups[i] == startups[1..][i - 1];
      rest
  }

  /** getWinnerName: nothing before a winner is stored, 'Tie' for a tie,
      else the winning startup's name. */
  function WinnerName(m: Match): (r: Option<string>) {
    if m.winner.None? then None
    else match m.winner.value
      case Tie => Some("Tie")
      case Won(side) => Some(if side == Startup1 then m.startup1.name else m.startup2.name)
  }

  /** The console and the big screen name the same winner; they differ
      only in how a tie is spelled. */
  lemma WinnerNameAgreesWithDisplay(m: Match)
    ensures m.winner != Some(Tie) ==> WinnerName(m) == Display.WinnerName(Some(m))
    ensures m.winner == Some(Tie) ==> WinnerName(m) == Some("Tie") && Display.WinnerName(Some(m)) == Some("TIE")
  {
  }

  /** A completed match shows the name of the side with the higher weighted
      score, or 'Tie' when both scores are equal. */
  lemma ConsoleNamesTheWinner(m: Match, now: int)
    requires m.status == Voting
    ensures var shown := WinnerName(Advanced(m, now));
      && (ScaledScore(m, Startup1) > ScaledScore(m, Startup2) ==> shown == Some(m.startup1.name))
      && (ScaledScore(m, Startup2) > ScaledScore(m, Startup1) ==> shown == Some(m.startup2.name))
      && (ScaledScore(m, Startup1) == ScaledScore(m, Startup2) ==> shown == Some("Tie"))
  {
  }

  /** "Start Match" is offered only for a pending match. */
  predicate CanStart(m: Match) {
    m.status == Pending
  }

  /** "Skip Phase" is offered only in pitch1, pitch2 and voting. */
  predicate CanSkip(m: Match) {
    m.status == Pitch1 || m.status == Pitch2 || m.status == Voting
  }

  /** Skipping always moves the match exactly one phase on, so the button
      never offers a step the store would ignore. */
  lemma SkipMovesOnePhase(m: Match, now: int)
    requires CanSkip(m)
    ensures PhaseRank(Advanced(m, now).status) == PhaseRank(m.status) + 1
    ensures CanSkip(Advanced(m, now)) <==> m.status != Voting
  {
    AdvanceStepsOnePhase(m, now);
  }

  /** On a well-formed match with a deadline, the display's timer fires only
      in the phases the console lets the admin skip, and in each of them it
      fires once the deadline has come. */
  lemma TimerFiresOnlyWhereSkipIsOffered(m: Match, now: int)
    requires WellFormed(m) && m.phaseEndTime.Some? && m.phaseEndTime.value != 0
    ensures Display.TimerFires(Some(m), now) ==> CanSkip(m)
    ensures CanSkip(m) ==> Display.TimerFires(Some(m), m.phaseEndTime.value)
  {
    Display.TimerFiresIff(m, now);
    Display.TimerFiresIff(m, m.phaseEndTime.value);
  }

  /** Starting is offered exactly for matches that have not been started. */
  lemma StartOfferedBeforeFirstPitcher(m: Match)
    requires WellFormed(m)
    ensures CanStart(m) <==> m.firstPitcher.None?
  {
  }

  /** Every stored match carries a judge weight in [0, 100] and an audience
      weight that complements it to 100. */
  ghost predicate WeightsComplement(matches: map<string, Match>) {
    forall id | id in matches :: 0 <= matches[id].judgeWeight <= 100 &&
      matches[id].judgeWeight + matches[id].audienceWeight == 100
  }

  /** Rewriting a match without touching its weights keeps the weights
      complementary. */
  lemma WeightsKeptWhenReplaced(matches: map<string, Match>, id: string, m: Match)
    requires WeightsComplement(matches) && id in matches
    requires m.judgeWeight == matches[id].judgeWeight && m.audienceWeight == matches[id].audienceWeight
    ensures WeightsComplement(matches[id := m])
  {
  }

  /** The outcome of the create button. */
  datatype CreateResult = Alerted(message: string) | Abandoned | Created(id: string)

  const BothMessage := "Please select both startups"
  const DifferentMessage := "Please select different startups"

  /* ------------------------------------------------------------------ */
  /* The console                                                         */
  /* ------------------------------------------------------------------ */

  class AdminController {
    var store: Store
    var startups: seq<Startup>
    var activeMatchId: Option<string>
    var selectedStartup1: string
    var selectedStartup2: string
    var votingDuration: int
    var pitchDuration: int
    var judgeWeight: int

    /** The store keeps its own invariant, the slider stays in range, and
        every match the console has created keeps weights summing to 100. */
    ghost predicate Valid()
      reads this, store
    {
      && store.Valid()
      && 0 <= judgeWeight <= 100
      && WeightsComplement(store.matches)
    }

    /** The console's initial form: no selection, 60 s voting, 90 s
        pitches, 70 % judge weight. */
    constructor (store: Store, startups: seq<Startup>)
      requires store.Valid() && WeightsComplement(store.matches)
      ensures Valid()
      ensures this.store == store && this.startups == startups && activeMatchId == None
      ensures selectedStartup1 == "" && selectedStartup2 == ""
      ensures votingDuration == 60 && pitchDuration == 90 && judgeWeight == 70
    {
      this.store := store;
      this.startups := startups;
      activeMatchId := None;
      selectedStartup1, selectedStartup2 := "", "";
      votingDuration, pitchDuration, judgeWeight := 60, 90, 70;
    }

    /** The mount effect: the console loads the store's active-match
        pointer into its own `activeMatchId`. */
    method LoadActiveMatch()
      requires Valid()
      modifies this
      ensures Valid()
      ensures activeMatchId == store.activeMatch
      ensures store == old(store) && startups == old(startups) && judgeWeight == old(judgeWeight)
      ensures selectedStartup1 == old(selectedStartup1) && selectedStartup2 == old(selectedStartup2)
      ensures votingDuration == old(votingDuration) && pitchDuration == old(pitchDuration)
    {
      activeMatchId := store.GetActiveMatch();
    }

    /** The judge-weight slider, whose range is 0 to 100. */
    method SetJudgeWeight(weight: int)
      requires Valid() && 0 <= weight <= 100
      modifies this
      ensures Valid()
      ensures judgeWeight == weight
      ensures store == old(store) && startups == old(startups) && activeMatchId == old(activeMatchId)
      ensures selectedStartup1 == old(selectedStartup1) && selectedStartup2 == old(selectedStartup2)
      ensures votingDuration == old(votingDuration) && pitchDuration == old(pitchDuration)
    {
      judgeWeight := weight;
    }

    /** The two startup drop-downs. */
    method Select(first: string, second: string)
      requires Valid()
      modifies this
      ensures Valid()
      ensures selectedStartup1 == first && selectedStartup2 == second
      ensures store == old(store) && startups == old(startups) && activeMatchId == old(activeMatchId)
      ensures judgeWeight == old(judgeWeight)
      ensures votingDuration == old(votingDuration) && pitchDuration == old(pitchDuration)
    {
      selectedStartup1, selectedStartup2 := first, second;
    }

    /** handleCreateMatch: alerts when a selection is missing or both are the
        same id, gives up silently when a selected id is not in the catalog,
        and otherwise creates the match with complementary weights and
        clears both selections. `newId` is the key the store hands out. */
    method HandleCreateMatch(newId: string, voteCode: string, now: int) returns (r: CreateResult)
      requires Valid() && newId !in store.matches
      modifies this, store
      ensures Valid()
      ensures store == old(store) && startups == old(startups) && activeMatchId == old(activeMatchId)
      ensures judgeWeight == old(judgeWeight)
      ensures votingDuration == old(votingDuration) && pitchDuration == old(pitchDuration)
      ensures old(selectedStartup1) == "" || old(selectedStartup2) == "" ==> r == Alerted(BothMessage)
      ensures (old(selectedStartup1) != "" && old(selectedStartup2) != "" &&
               old(selectedStartup1) == old(selectedStartup2)) ==> r == Alerted(DifferentMessage)
      ensures r.Created? <==>
        && old(selectedStartup1) != "" && old(selectedStartup2) != ""
        && old(selectedStartup1) != old(selectedStartup2)
        && FindStartup(startups, old(selectedStartup1)).Some?
        && FindStartup(startups, old(selectedStartup2)).Some?
      ensures r == Abandoned <==>
        && old(selectedStartup1) != "" && old(selectedStartup2) != ""
        && old(selectedStartup1) != old(selectedStartup2)
        && (FindStartup(startups, old(selectedStartup1)).None? ||
            FindStartup(startups, old(selectedStartup2)).None?)
      ensures !r.Created? ==>
        && store.matches == old(store.matches) && store.votes == old(store.votes)
        && store.voters == old(store.voters) && store.settings == old(store.settings)
        && store.activeMatch == old(store.activeMatch)
        && selectedStartup1 == old(selectedStartup1) && selectedStartup2 == old(selectedStartup2)
      ensures r.Created? ==>
        && r.id == newId
        && store.matches == old(store.matches)[newId := NewMatch(newId,
             FindStartup(startups, old(selectedStartup1)).value,
             FindStartup(startups, old(selectedStartup2)).value,
             votingDuration, pitchDuration, judgeWeight, 100 - judgeWeight, now, voteCode)]
        && store.matches[newId].judgeWeight + store.matches[newId].audienceWeight == 100
        && store.votes == old(store.votes) && store.voters == old(store.voters)
        && store.settings == old(store.settings) && store.activeMatch == old(store.activeMatch)
        && selectedStartup1 == "" && selectedStartup2 == ""
    {
      if selectedStartup1 == "" || selectedStartup2 == "" {
        return Alerted(BothMessage);
      }
      if selectedStartup1 == selectedStartup2 {
        return Alerted(DifferentMessage);
      }
      var startup1 := FindStartup(startups, selectedStartup1);
      var startup2 := FindStartup(startups, selectedStartup2);
      if startup1.None? || startup2.None? {
        return Abandoned;
      }
      var id := store.CreateMatch(newId, startup1.value, startup2.value, now, voteCode,
                                  votingDuration, pitchDuration, judgeWeight, 100 - judgeWeight);
      selectedStartup1 := "";
      selectedStartup2 := "";
      r := Created(id);
    }

    /** handleStartMatch: starts the match, then makes it the active match
        in the store and locally; a missing match stops at the first step. */
    method HandleStartMatch(matchId: string, now: int, coinBelowHalf: bool) returns (r: Outcome)
      requires Valid()
      modifies this, store
      ensures Valid()
      ensures store == old(store) && startups == old(startups)
      ensures selectedStartup1 == old(selectedStartup1) && selectedStartup2 == old(selectedStartup2)
      ensures judgeWeight == old(judgeWeight)
      ensures votingDuration == old(votingDuration) && pitchDuration == old(pitchDuration)
      ensures store.votes == old(store.votes) && store.voters == old(store.voters)
      ensures store.settings == old(store.settings)
      ensures matchId !in old(store.matches) ==>
        && r == Failed(MatchNotFound) && store.matches == old(store.matches)
        && store.activeMatch == old(store.activeMatch) && activeMatchId == old(activeMatchId)
      ensures matchId in old(store.matches) ==>
        && r == Done
        && store.matches == old(store.matches)[matchId := Started(old(store.matches)[matchId], now, coinBelowHalf)]
        && store.activeMatch == Some(matchId) && activeMatchId == Some(matchId)
    {
      r := store.StartMatch(matchId, now, coinBelowHalf);
      if r.Failed? {
        return;
      }
      store.SetActiveMatch(Some(matchId));
      activeMatchId := Some(matchId);
    }

    /** handleAdvancePhase: the "Skip Phase" button. */
    method HandleAdvancePhase(matchId: string, now: int) returns (r: Outcome)
      requires Valid()
      modifies store
      ensures Valid()
      ensures store.votes == old(store.votes) && store.voters == old(store.voters)
      ensures store.settings == old(store.settings) && store.activeMatch == old(store.activeMatch)
      ensures matchId !in old(store.matches) ==> r == Failed(MatchNotFound) && store.matches == old(store.matches)
      ensures matchId in old(store.matches) ==>
        r == Done && store.matches == old(store.matches)[matchId := Advanced(old(store.matches)[matchId], now)]
    {
      r := store.AdvancePhase(matchId, now);
      if matchId in old(store.matches) {
        WeightsKeptWhenReplaced(old(store.matches), matchId, Advanced(old(store.matches)[matchId], now));
      }
    }

    /** handleDeleteMatch: after confirmation deletes the match, and clears
        the active pointer (store and local) only when this console had that
        match active. */
    method HandleDeleteMatch(matchId: string, confirmed: bool)
      requires Valid()
      modifies this, store
      ensures Valid()
      ensures store == old(store) && startups == old(startups)
      ensures selectedStartup1 == old(selectedStartup1) && selectedStartup2 == old(selectedStartup2)
      ensures judgeWeight == old(judgeWeight)
      ensures votingDuration == old(votingDuration) && pitchDuration == old(pitchDuration)
      ensures store.voters == old(store.voters) && store.settings == old(store.settings)
      ensures !confirmed ==>
        && store.matches == old(store.matches) && store.votes == old(store.votes)
        && store.activeMatch == old(store.activeMatch) && activeMatchId == old(activeMatchId)
      ensures confirmed ==>
        && store.matches == old(store.matches) - {matchId}
        && store.votes == WithoutMatch(old(store.votes), matchId)
      ensures confirmed && old(activeMatchId) == Some(matchId) ==>
        store.activeMatch == None && activeMatchId == None
      ensures !(confirmed && old(activeMatchId) == Some(matchId)) ==>
        store.activeMatch == old(store.activeMatch) && activeMatchId == old(activeMatchId)
    {
      if confirmed {
        store.DeleteMatch(matchId);
        if activeMatchId == Some(matchId) {
          store.SetActiveMatch(None);
          activeMatchId := None;
        }
      }
    }

    /** handleSetActiveMatch: points the store and the console at the match,
        whether or not it exists. */
    method HandleSetActiveMatch(matchId: string)
      requires Valid()
      modifies this, store
      ensures Valid()
      ensures store == old(store) && startups == old(startups)
      ensures selectedStartup1 == old(selectedStartup1) && selectedStartup2 == old(selectedStartup2)
      ensures judgeWeight == old(judgeWeight)
      ensures votingDuration == old(votingDuration) && pitchDuration == old(pitchDuration)
      ensures store.matches == old(store.matches) && store.votes == old(store.votes)
      ensures store.voters == old(store.voters) && store.settings == old(store.settings)
      ensures store.activeMatch == Some(matchId) && activeMatchId == Some(matchId)
    {
      store.SetActiveMatch(Some(matchId));
      activeMatchId := Some(matchId);
    }
  }
}
