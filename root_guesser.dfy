/**
 * The RootGuesser window's state: the current score, the high score, the Decimal/Integer
 * setting and the RGHS.txt record, with the actions that change them in place.
 */
module Game {
  import opened Wrappers
  import opened JavaInt
  import opened Record
  import opened Score
  import Labels
  import opened Startup

  class RootGuesser {
    var score: int
    var highScore: int
    var settingIsDecimal: bool
    var rghs: Option<string>  // contents of RGHS.txt, None when the file does not exist

    /** Scores are never negative, the high score is at least the score, both are ints. */
    ghost predicate Valid()
      reads this
    {
      0 <= score <= highScore <= MaxInt
    }

    function State(): Session
      reads this
    {
      Session(score, highScore, settingIsDecimal, rghs)
    }

    /** Start-up from the file found on disk, with the corrected load order. */
    constructor (file: Option<string>)
      requires LaunchFixed(file).Running?
      ensures Valid() && State() == LaunchFixed(file).session
    {
      LaunchFixedOutcome(file);
      var s := LaunchFixed(file).session;
      score, highScore, settingIsDecimal, rghs := s.score, s.highScore, s.isDecimal, s.rghs;
    }

    /** `writeDataToRGHS`: replace the record by the current high score and setting. */
    method WriteData()
      modifies this`rghs
      ensures State() == Persist(old(State()))
    {
      rghs := Some(Serialize(highScore, settingIsDecimal));
    }

    /**
     * `updateScore`: add the change as Java ints, clamp at zero, raise the high score to the
     * score when it is passed. Nothing is written to the record. Whatever int values the
     * scores held before, the invariant holds afterwards.
     */
    method UpdateScore(scoreChange: int)
      requires IsInt(score) && IsInt(highScore) && IsInt(scoreChange)
      modifies this`score, this`highScore
      ensures Valid()
      ensures score == NextScore(old(score), scoreChange)
      ensures highScore == NextHigh(old(highScore), score)
    {
      var sum := Add(score, scoreChange);
      if sum >= 0 {
        score := sum;
      } else {
        score := 0;
      }
      if score > highScore {
        highScore := score;
      }
    }

    /**
     * The reset button: the high score is set to 0 and written, then `updateScore(0)` lifts
     * it back to the current score in memory, while the record still says 0.
     */
    method Reset()
      requires Valid()
      modifies this`score, this`highScore, this`rghs
      ensures Valid()
      ensures score == old(score) && highScore == score
      ensures rghs == Some(Serialize(0, settingIsDecimal))
    {
      highScore := 0;
      WriteData();
      UpdateScore(0);
    }

    /** `switchSetting`: flip the setting and write the record. */
    method SwitchSetting()
      requires Valid()
      modifies this`settingIsDecimal, this`rghs
      ensures Valid()
      ensures settingIsDecimal == !old(settingIsDecimal)
      ensures rghs == Some(Serialize(highScore, settingIsDecimal))
    {
      settingIsDecimal := !settingIsDecimal;
      WriteData();
    }

    /** The setting button: `switchSetting`, then one more write of the same record. */
    method SettingPressed()
      requires Valid()
      modifies this`settingIsDecimal, this`rghs
      ensures Valid()
      ensures settingIsDecimal == !old(settingIsDecimal)
      ensures rghs == Some(Serialize(highScore, settingIsDecimal))
    {
      SwitchSetting();
      WriteData();
    }

    /** Closing the window writes the record once more. */
    method WindowClosing()
      requires Valid()
      modifies this`rghs
      ensures Valid()
      ensures rghs == Some(Serialize(highScore, settingIsDecimal))
    {
      WriteData();
    }

    /** `settingName`: the label of the current setting. */
    function SettingName(): (r: string)
      reads this
      ensures r == "Decimal" <==> settingIsDecimal
      ensures r == "Integer" <==> !settingIsDecimal
    {
      Labels.SettingName(settingIsDecimal)
    }
  }

  /**
   * A session from a fresh start: a round ending below zero is clamped, a gain raises the
   * high score, a reset writes 0, a relaunch from that record restores 0, and two setting
   * toggles restore the setting.
   */
  method PlayResetAndToggle()
  {
    LaunchFixedWithoutRecord();
    var g := new RootGuesser(None);
    assert g.score == 0 && g.highScore == 0 && g.settingIsDecimal;
    g.UpdateScore(-7);
    assert g.score == 0;
    g.UpdateScore(2);
    assert g.score == 2 && g.highScore == 2;
    g.Reset();
    assert g.score == 2 && g.highScore == 2 && g.rghs == Some(Serialize(0, true));
    LaunchRoundTrip(0, true);
    var h := new RootGuesser(g.rghs);
    assert h.highScore == 0 && h.settingIsDecimal;
    h.SettingPressed();
    h.SettingPressed();
    assert h.settingIsDecimal && h.highScore == 0;
  }
}
