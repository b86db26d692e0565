/** The big-screen display: who is pitching, the countdown, the vote totals
    and the winner's name, all read off the active match. */
module Display {
  import opened Types
  import opened Database

  /* ------------------------------------------------------------------ */
  /* Pitch order                                                         */
  /* ------------------------------------------------------------------ */

  /** getCurrentPitcher: the startup named by `firstPitcher` during pitch1,
      the other one during pitch2, nobody otherwise. A `firstPitcher` other
      than 'startup1' (including a missing one) counts as 'startup2'. */
  function CurrentPitcher(m: Option<Match>): (r: Option<Startup>) {
    if m.None? then None
    else if m.value.status == Pitch1 then
      Some(if m.value.firstPitcher == Some(Startup1) then m.value.startup1 else m.value.startup2)
    else if m.value.status == Pitch2 then
      Some(if m.value.firstPitcher == Some(Startup1) then m.value.startup2 else m.value.startup1)
    else None
  }

  /** getNextPitcher: during pitch1, the startup that pitches second. */
  function NextPitcher(m: Option<Match>): (r: Option<Startup>) {
    if m.None? then None
    else if m.value.status == Pitch1 then
      Some(if m.value.firstPitcher == Some(Startup1) then m.value.startup2 else m.value.startup1)
    else None
  }

  /** The side that pitches first, as the display reads `firstPitcher`. */
  function Opener(m: Match): (r: Side) {
    if m.firstPitcher == Some(Startup1) then Startup1 else Startup2
  }

  /** pitch1 shows the opener, pitch2 the other side. */
  lemma PitchersFollowFirstPitcher(m: Match)
    ensures CurrentPitcher(Some(m.(status := Pitch1))) == Some(m.Contender(Opener(m)))
    ensures CurrentPitcher(Some(m.(status := Pitch2))) == Some(m.Contender(Opener(m).Other()))
    ensures m.firstPitcher.Some? ==> Opener(m) == m.firstPitcher.value
  {
  }

  /** Over the two pitch phases each startup is on stage exactly once. */
  lemma EachStartupPitchesOnce(m: Match)
    ensures var first := CurrentPitcher(Some(m.(status := Pitch1)));
      var second := CurrentPitcher(Some(m.(status := Pitch2)));
      first.Some? && second.Some? &&
      multiset{first.value, second.value} == multiset{m.startup1, m.startup2}
  {
  }

  /** Who is announced as next during pitch1 is who is on stage once the
      phase has advanced to pitch2. */
  lemma NextPitcherIsUpAfterAdvance(m: Match, now: int)
    requires m.status == Pitch1
    ensures NextPitcher(Some(m)).Some?
    ensures NextPitcher(Some(m)) == CurrentPitcher(Some(Advanced(m, now)))
  {
  }

  /** Nobody is on stage without a match or outside pitch1/pitch2, and a
      next pitcher is announced only during pitch1. */
  lemma NoPitcherOffStage(m: Option<Match>)
    ensures CurrentPitcher(m).None? <==> m.None? || (m.value.status != Pitch1 && m.value.status != Pitch2)
    ensures NextPitcher(m).Some? <==> m.Some? && m.value.status == Pitch1
  {
  }

  /* ------------------------------------------------------------------ */
  /* The countdown text                                                  */
  /* ------------------------------------------------------------------ */

  predicate IsDigit(c: char) {
    '0' <= c <= '9'
  }

  predicate AllDigits(s: string) {
    forall k :: 0 <= k < |s| ==> IsDigit(s[k])
  }

  /** The value of a string of decimal digits. */
  function DigitsValue(s: string): (r: nat)
    requires AllDigits(s)
    decreases |s|
  {
    if s == [] then 0 else DigitsValue(s[..|s| - 1]) * 10 + (s[|s| - 1] as int - '0' as int)
  }

  /** `n.toString()`: decimal digits without leading zeros. */
  function Decimal(n: nat): (s: string)
    ensures |s| >= 1 && AllDigits(s) && DigitsValue(s) == n
    ensures |s| > 1 ==> s[0] != '0'
    decreases n
  {
    var last := [('0' as int + n % 10) as char];
    if n < 10 then last
    else
      var prefix := Decimal(n / 10);
      assert (prefix + last)[..|prefix + last| - 1] == prefix;
      prefix + last
  }

  /** `padStart(2, '0')`. */
  function PadTwo(s: string): (r: string) {
    if |s| >= 2 then s else seq(2 - |s|, _ => '0') + s
  }

  /** formatTime: `mins:ss`. */
  function FormatTime(seconds: nat): (r: string) {
    Decimal(seconds / 60) + ":" + PadTwo(Decimal(seconds % 60))
  }

  /** The position of the first ':' in `t`, or |t| when there is none. */
  function ColonAt(t: string): (i: nat)
    ensures i <= |t| && (i < |t| ==> t[i] == ':')
    ensures forall k :: 0 <= k < i ==> t[k] != ':'
    decreases |t|
  {
    if t == [] then 0 else if t[0] == ':' then 0 else 1 + ColonAt(t[1..])
  }

  /** Reads a countdown back: digits, ':', then exactly two digits below 60. */
  function ParseTime(t: string): (r: Option<nat>) {
    var i := ColonAt(t);
    if i == |t| then None
    else
      var mins, secs := t[..i], t[i + 1..];
      if |mins| >= 1 && AllDigits(mins) && |secs| == 2 && AllDigits(secs) && DigitsValue(secs) < 60
      then Some(DigitsValue(mins) * 60 + DigitsValue(secs))
      else None
  }

  /** The seconds part is always exactly two digits and reads back as
      `seconds mod 60`; the minutes part reads back as `seconds div 60`. */
  lemma FormatTimeShape(seconds: nat)
    ensures var t := FormatTime(seconds);
      var m := Decimal(seconds / 60);
      t[..|m|] == m && t[|m|] == ':' &&
      |t| == |m| + 3 && AllDigits(t[|m| + 1..]) && DigitsValue(t[|m| + 1..]) == seconds % 60
  {
    var m := Decimal(seconds / 60);
    var ss := Decimal(seconds % 60);
    var padded := PadTwo(ss);
    var t := FormatTime(seconds);
    assert t == m + ":" + padded;
    assert t[|m| + 1..] == padded;
    if |ss| < 2 {
      assert |ss| == 1 && padded == ['0'] + ss;
      assert padded[..1] == ['0'];
    } else {
      assert |ss| == 2 by {
        if |ss| > 2 {
          DigitsAtLeast(ss);
        }
      }
    }
  }

  /** A digit string of length n >= 3 without a leading zero is worth at least 100. */
  lemma {:induction false} DigitsAtLeast(s: string)
    requires AllDigits(s) && |s| >= 3 && s[0] != '0'
    ensures DigitsValue(s) >= 100
    decreases |s|
  {
    var init := s[..|s| - 1];
    if |s| > 3 {
      DigitsAtLeast(init);
    } else {
      assert init[..|init| - 1] == [s[0]];
      assert DigitsValue([s[0]]) >= 1 by {
        assert [s[0]][..0] == [];
      }
    }
  }

  /** formatTime loses nothing: the countdown text reads back as the same
      number of seconds. */
  lemma FormatTimeRoundTrip(seconds: nat)
    ensures ParseTime(FormatTime(seconds)) == Some(seconds)
  {
    FormatTimeShape(seconds);
    var t := FormatTime(seconds);
    var m := Decimal(seconds / 60);
    var i := ColonAt(t);
    assert i == |m|;
    assert t[..i] == m;
  }

  /* ------------------------------------------------------------------ */
  /* The phase timer                                                     */
  /* ------------------------------------------------------------------ */

  /** `Math.max(0, Math.floor((phaseEndTime - now) / 1000))`: whole seconds
      left, never negative. Dafny's `/` floors for a positive divisor. */
  function RemainingSeconds(phaseEnd: int, now: int): (r: nat)
    ensures phaseEnd - now >= 0 ==> r * 1000 <= phaseEnd - now < (r + 1) * 1000
    ensures phaseEnd - now < 0 ==> r == 0
  {
    var q := (phaseEnd - now) / 1000;
    if q > 0 then q else 0
  }

  /** The countdown reaches zero exactly in the last second before the
      deadline and stays at zero after it. */
  lemma RemainingZeroIff(phaseEnd: int, now: int)
    ensures RemainingSeconds(phaseEnd, now) == 0 <==> phaseEnd - now < 1000
  {
  }

  /** The countdown never goes up as time passes. */
  lemma RemainingCountsDown(phaseEnd: int, now1: int, now2: int)
    requires now1 <= now2
    ensures RemainingSeconds(phaseEnd, now2) <= RemainingSeconds(phaseEnd, now1)
  {
  }

  /** The auto-advance condition: a (truthy) deadline is set, no whole
      second is left, and the match is neither selecting (its own animation
      advances it) nor completed. */
  predicate TimerFires(m: Option<Match>, now: int) {
    && m.Some?
    && m.value.phaseEndTime.Some?
    && m.value.phaseEndTime.value != 0
    && RemainingSeconds(m.value.phaseEndTime.value, now) == 0
    && m.value.status != Selecting
    && m.value.status != Completed
  }

  /** On a well-formed match with a nonzero deadline, the timer fires
      exactly in pitch1, pitch2 and voting once less than a second is left. */
  lemma TimerFiresIff(m: Match, now: int)
    requires WellFormed(m) && m.phaseEndTime.Some? && m.phaseEndTime.value != 0
    ensures TimerFires(Some(m), now) <==>
      (m.status == Pitch1 || m.status == Pitch2 || m.status == Voting) && m.phaseEndTime.value - now < 1000
  {
    RemainingZeroIff(m.phaseEndTime.value, now);
  }

  /** When the timer fires on a well-formed match, the advance it triggers
      moves the match exactly one phase on. */
  lemma TimerAdvanceMovesOn(m: Match, now: int, later: int)
    requires WellFormed(m) && TimerFires(Some(m), now)
    ensures PhaseRank(Advanced(m, later).status) == PhaseRank(m.status) + 1
  {
    AdvanceStepsOnePhase(m, later);
  }

  /* ------------------------------------------------------------------ */
  /* Totals and the winner                                               */
  /* ------------------------------------------------------------------ */

  /** getTotalVotes: judge plus audience votes for one side; 0 with no
      match. A side's total is part of the votes counted for the match. */
  function TotalVotes(m: Option<Match>, side: Side): (n: nat)
    ensures m.None? ==> n == 0
    ensures m.Some? ==> n <= VotesCounted(m.value)
  {
    if m.None? then 0 else m.value.judgeVotes.Get(side) + m.value.audienceVotes.Get(side)
  }

  /** For a match whose counters agree with the ledger, the two totals on
      screen add up to the number of ballots recorded for it. */
  lemma TotalsCountTheLedger(m: Match, votes: map<(string, string), Vote>)
    requires TalliesAgree(m, votes)
    ensures TotalVotes(Some(m), Startup1) + TotalVotes(Some(m), Startup2) == |MatchLedger(votes, m.id)|
  {
    TalliesSumToLedger(m, votes);
  }

  /** With equal judge and audience weights, the totals on screen decide the
      match: the side with more votes wins, and equal totals are a tie. */
  lemma EqualWeightsFollowTotals(m: Match)
    requires m.judgeWeight == m.audienceWeight && m.judgeWeight > 0
    ensures DecideWinner(m) == Won(Startup1) <==> TotalVotes(Some(m), Startup1) > TotalVotes(Some(m), Startup2)
    ensures DecideWinner(m) == Won(Startup2) <==> TotalVotes(Some(m), Startup2) > TotalVotes(Some(m), Startup1)
    ensures DecideWinner(m) == Tie <==> TotalVotes(Some(m), Startup1) == TotalVotes(Some(m), Startup2)
  {
    var w, t1, t2 := m.judgeWeight, TotalVotes(Some(m), Startup1), TotalVotes(Some(m), Startup2);
    assert ScaledScore(m, Startup1) == w * t1;
    assert ScaledScore(m, Startup2) == w * t2;
    ScaleKeepsOrder(w, t1, t2);
    ScaleKeepsOrder(w, t2, t1);
  }

  /** Multiplying by a positive weight keeps a strict order. */
  lemma ScaleKeepsOrder(w: int, x: int, y: int)
    requires w > 0
    ensures w * x > w * y <==> x > y
  {
    if x > y {
      assert w * x - w * y == w * (x - y);
    } else {
      assert w * y - w * x == w * (y - x);
    }
  }

  /** getWinnerName: nothing before a winner is stored, 'TIE' for a tie,
      else the winning startup's name. */
  function WinnerName(m: Option<Match>): (r: Option<string>) {
    if m.None? || m.value.winner.None? then None
    else match m.value.winner.value
      case Tie => Some("TIE")
      case Won(side) => Some(if side == Startup1 then m.value.startup1.name else m.value.startup2.name)
  }

  /** Once voting ends the screen names the startup with the higher weighted
      score, or 'TIE' when the scores are equal. */
  lemma ScreenNamesTheWinner(m: Match, now: int)
    requires m.status == Voting
    ensures var shown := WinnerName(Some(Advanced(m, now)));
      && (ScaledScore(m, Startup1) > ScaledScore(m, Startup2) ==> shown == Some(m.startup1.name))
      && (ScaledScore(m, Startup2) > ScaledScore(m, Startup1) ==> shown == Some(m.startup2.name))
      && (ScaledScore(m, Startup1) == ScaledScore(m, Startup2) ==> shown == Some("TIE"))
  {
  }
}
