/**
  The leaderboard panel (frontend/src/components/Leaderboard.js): a snapshot of the top users
  that a successful load replaces and a failed one keeps, reloaded on mount, by a periodic
  timer while mounted and on positive refresh triggers, and the medal and colour of each rank.
 */
module LeaderboardView {
  import opened Common
  import opened ClientData

  const LoadError: string := "Failed to load leaderboard"
  /** The refresh period of the interval installed on mount. */
  const RefreshIntervalMs: nat := 30 * 1000

  /** The colours of one rank's badge. */
  datatype RankStyle = RankStyle(bg: string, border: string, text: string)

  const Podium: seq<RankStyle> := [
    RankStyle("linear-gradient(135deg, #ffd700 0%, #ffed4e 100%)", "#ffd700", "#92400e"),
    RankStyle("linear-gradient(135deg, #c0c0c0 0%, #e8e8e8 100%)", "#c0c0c0", "#374151"),
    RankStyle("linear-gradient(135deg, #cd7f32 0%, #e8b278 100%)", "#cd7f32", "#92400e")
  ]
  const DefaultStyle: RankStyle := RankStyle("white", "#e5e7eb", "#374151")

  const Medals: seq<string> := ["\U{1F947}", "\U{1F948}", "\U{1F949}"]

  /** `colors[index] || default`: the podium colours for the first three, the default after. */
  function RankStyleOf(index: nat): (r: RankStyle)
  {
    if index < |Podium| then Podium[index] else DefaultStyle
  }

  /** The three podium ranks each get their own style, none of them the default, and every
      later rank shares the default. */
  lemma RankStylesDistinct(i: nat, j: nat)
    ensures i < 3 && j < 3 ==> (RankStyleOf(i) == RankStyleOf(j) <==> i == j)
    ensures i < 3 ==> RankStyleOf(i) != DefaultStyle
    ensures i >= 3 && j >= 3 ==> RankStyleOf(i) == RankStyleOf(j)
  {
  }

  /** `emojis[index] || '#' + (index + 1)`: a medal for the first three, the rank after. */
  function RankEmoji(index: nat): (r: string)
  {
    if index < |Medals| then Medals[index] else "#" + Decimal(index + 1)
  }

  /** A numbered label is `#` followed by the 1-based rank, which it reads back as. */
  lemma RankLabelReadsBack(i: nat)
    requires i >= 3
    ensures RankEmoji(i)[0] == '#' && ParseDecimal(RankEmoji(i)[1..]) == i + 1
  {
    DecimalRoundTrip(i + 1);
    assert RankEmoji(i)[1..] == Decimal(i + 1);
  }

  /** Every rank gets its own label: the medals differ from each other and from the
      numbered ranks, and two numbered labels differ with their ranks. */
  lemma RankEmojiDistinct(i: nat, j: nat)
    ensures RankEmoji(i) == RankEmoji(j) <==> i == j
  {
    if i >= 3 {
      RankLabelReadsBack(i);
    }
    if j >= 3 {
      RankLabelReadsBack(j);
    }
  }

  class Panel {
    var leaderboard: seq<LeaderJson>
    var loading: bool
    var error: string
    /** `lastUpdated`: null until a load succeeds, then that response's `updated_at`. */
    var lastUpdated: Option<string>
    /** Whether the 30-second interval is installed. */
    var timerActive: bool

    constructor()
      ensures leaderboard == [] && !loading && error == "" && lastUpdated.None? && !timerActive
    {
      leaderboard := [];
      loading := false;
      error := "";
      lastUpdated := None;
      timerActive := false;
    }

    /** `loadLeaderboard` before the `await`. */
    method BeginLoad() returns (call: Request)
      modifies this`loading, this`error
      ensures loading && error == "" && call == GetLeaderboard
    {
      loading := true;
      error := "";
      call := GetLeaderboard;
    }

    /** `loadLeaderboard` after the `await`: a response replaces the snapshot and its time; a
        failure keeps both and sets the error. Loading is over either way. */
    method FinishLoad(outcome: Outcome<LeaderboardJson>)
      modifies this`leaderboard, this`lastUpdated, this`error, this`loading
      ensures !loading
      ensures outcome.Ok? ==>
        leaderboard == outcome.value.leaderboard && lastUpdated == Some(outcome.value.updatedAt) && error == old(error)
      ensures outcome.Failed? ==>
        leaderboard == old(leaderboard) && lastUpdated == old(lastUpdated) && error == LoadError
    {
      match outcome {
        case Ok(data) =>
          leaderboard := data.leaderboard;
          lastUpdated := Some(data.updatedAt);
        case Failed =>
          error := LoadError;
      }
      loading := false;
    }

    /** A whole `loadLeaderboard`. */
    method Load(outcome: Outcome<LeaderboardJson>) returns (call: Request)
      modifies this`leaderboard, this`lastUpdated, this`error, this`loading
      ensures call == GetLeaderboard && !loading
      ensures outcome.Ok? ==>
        leaderboard == outcome.value.leaderboard && lastUpdated == Some(outcome.value.updatedAt) && error == ""
      ensures outcome.Failed? ==>
        leaderboard == old(leaderboard) && lastUpdated == old(lastUpdated) && error == LoadError
    {
      call := BeginLoad();
      FinishLoad(outcome);
    }

    /** The mount effect: one load, then the interval is installed. */
    method Mount(outcome: Outcome<LeaderboardJson>) returns (call: Request)
      modifies this
      ensures call == GetLeaderboard && !loading && timerActive
      ensures outcome.Ok? ==>
        leaderboard == outcome.value.leaderboard && lastUpdated == Some(outcome.value.updatedAt) && error == ""
      ensures outcome.Failed? ==>
        leaderboard == old(leaderboard) && lastUpdated == old(lastUpdated) && error == LoadError
    {
      call := Load(outcome);
      timerActive := true;
    }

    /** A tick of the interval: a load, as long as the panel is mounted. */
    method Tick(outcome: Outcome<LeaderboardJson>) returns (call: Option<Request>)
      modifies this`leaderboard, this`lastUpdated, this`error, this`loading
      ensures !old(timerActive) ==> call.None? && unchanged(this)
      ensures old(timerActive) ==> call == Some(GetLeaderboard) && !loading
      ensures old(timerActive) && outcome.Ok? ==>
        leaderboard == outcome.value.leaderboard && lastUpdated == Some(outcome.value.updatedAt) && error == ""
      ensures old(timerActive) && outcome.Failed? ==>
        leaderboard == old(leaderboard) && lastUpdated == old(lastUpdated) && error == LoadError
    {
      if !timerActive {
        return None;
      }
      var request := Load(outcome);
      call := Some(request);
    }

    /** The cleanup of the mount effect: the interval is cleared. */
    method Unmount()
      modifies this`timerActive
      ensures !timerActive
    {
      timerActive := false;
    }

    /** The refresh-trigger effect: a load only for a positive trigger. */
    method RefreshTriggerChanged(trigger: int, outcome: Outcome<LeaderboardJson>) returns (call: Option<Request>)
      modifies this`leaderboard, this`lastUpdated, this`error, this`loading
      ensures trigger <= 0 ==> call.None? && unchanged(this)
      ensures trigger > 0 ==> call == Some(GetLeaderboard) && !loading
      ensures trigger > 0 && outcome.Ok? ==>
        leaderboard == outcome.value.leaderboard && lastUpdated == Some(outcome.value.updatedAt) && error == ""
      ensures trigger > 0 && outcome.Failed? ==>
        leaderboard == old(leaderboard) && lastUpdated == old(lastUpdated) && error == LoadError
    {
      if trigger <= 0 {
        return None;
      }
      var request := Load(outcome);
      call := Some(request);
    }
  }
}
