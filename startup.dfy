/**
 * What the RootGuesser constructor does with RGHS.txt: `readHighScore` followed by
 * `readSetting`, over a snapshot of the three fields and the file. The file is an
 * `Option<string>`: None when it does not exist.
 */
module Startup {
  import opened Wrappers
  import opened JavaInt
  import opened Validator
  import opened Record

  /** The fields `score`, `highScore`, `settingIsDecimal` and the contents of RGHS.txt. */
  datatype Session = Session(score: int, highScore: int, isDecimal: bool, rghs: Option<string>)

  /** The unchecked exceptions that abort the constructor. */
  datatype Fault =
    | NullScoreLabel   // updateScore reaches a score label the constructor has not built yet
    | NoSpace          // substring(0, -1): the first line has no space
    | NotAnInt         // parseInt rejects a numeric-looking high score ("1.5", too large)

  datatype Outcome = Running(session: Session) | Crashed(fault: Fault, rghs: Option<string>)

  /** `writeDataToRGHS`: the record is replaced as a whole by the current high score and setting. */
  function Persist(s: Session): (r: Session)
    ensures r.rghs == Some(Serialize(s.highScore, s.isDecimal))
    ensures r == s.(rghs := r.rghs)
  {
    s.(rghs := Some(Serialize(s.highScore, s.isDecimal)))
  }

  /** A first line whose text before the first space is not accepted by the validator. */
  predicate Corrupt(content: string) {
    var f := HighScoreField(DataText(content));
    f.Some? && !Numeric(f.value)
  }

  /**
   * `readHighScore`, as the constructor runs it. A missing file is replaced by a record of
   * the current score, and the `updateScore(0)` that follows throws, because the score label
   * is built only after `readHighScore` returns. A present file supplies its first line;
   * a numeric high-score field is parsed, any other is replaced by the current score and the
   * record is rewritten.
   */
  function ReadHighScore(s: Session): (r: Outcome)
    ensures s.rghs.None? ==> r == Crashed(NullScoreLabel, Some(Serialize(s.score, s.isDecimal)))
    ensures s.rghs.Some? && Corrupt(s.rghs.value) ==> r == Running(Persist(s.(highScore := s.score)))
    ensures s.rghs.Some? && HighScoreField(DataText(s.rghs.value)).None? ==> r == Crashed(NoSpace, s.rghs)
    ensures s.rghs.Some? ==>
      var f := HighScoreField(DataText(s.rghs.value));
      f.Some? && Numeric(f.value) ==>
        r == (if ParseInt(f.value).Some? then Running(s.(highScore := ParseInt(f.value).value))
              else Crashed(NotAnInt, s.rghs))
    ensures r.Running? ==> r.session.score == s.score && r.session.isDecimal == s.isDecimal
  {
    match s.rghs
    case None =>
      var written := Persist(s.(highScore := s.score));
      Crashed(NullScoreLabel, written.rghs)
    case Some(content) =>
      match HighScoreField(DataText(content))
      case None => Crashed(NoSpace, s.rghs)
      case Some(prefix) =>
        if Numeric(prefix) then
          match ParseInt(prefix)
          case None => Crashed(NotAnInt, s.rghs)
          case Some(v) => Running(s.(highScore := v))
        else
          Running(Persist(s.(highScore := s.score)))
  }

  /**
   * `readSetting`: a present file decides the setting by whether the text after the first
   * space is exactly "true"; a missing file is written from the current fields, which stay.
   */
  function ReadSetting(s: Session): (r: Session)
    ensures r.score == s.score && r.highScore == s.highScore
    ensures s.rghs.None? ==> r == Persist(s)
    ensures s.rghs.Some? ==> r.rghs == s.rghs && (r.isDecimal <==> SettingField(DataText(s.rghs.value)) == "true")
  {
    match s.rghs
    case None => Persist(s)
    case Some(content) => s.(isDecimal := SettingField(DataText(content)) == "true")
  }

  /**
   * The constructor as written: the fields start at Java's defaults (0, 0, false), then
   * `readHighScore`, then the setting is set to true and `readSetting` runs.
   */
  function Launch(file: Option<string>): (r: Outcome)
    ensures r.Running? ==> r.session.score == 0
  {
    match ReadHighScore(Session(0, 0, false, file))
    case Crashed(f, written) => Crashed(f, written)
    case Running(s) => Running(ReadSetting(s.(isDecimal := true)))
  }

  /**
   * The constructor with the setting defaulting to true before anything is written, and
   * `readSetting` first, so that every record written during start-up keeps the stored
   * setting and a missing file is created before the high score is read.
   */
  function LaunchFixed(file: Option<string>): (r: Outcome)
    ensures r.Running? ==> r.session.score == 0
  {
    ReadHighScore(ReadSetting(Session(0, 0, true, file)))
  }

  /** A record the program wrote for a valid high score restores it and the setting exactly. */
  lemma LaunchRoundTrip(h: int, m: bool)
    requires 0 <= h <= MaxInt
    ensures var f := Some(Serialize(h, m));
      Launch(f) == Running(Session(0, h, m, f)) && LaunchFixed(f) == Running(Session(0, h, m, f))
  {
    RoundTrip(h, m);
  }

  /**
   * As written, the first launch without RGHS.txt aborts after writing "0 false", and the
   * next launch then starts in the Integer setting.
   */
  lemma LaunchWithoutRecord()
    ensures var f := Some(Serialize(0, false));
      Launch(None) == Crashed(NullScoreLabel, f) && Launch(f) == Running(Session(0, 0, false, f))
  {
    LaunchRoundTrip(0, false);
  }

  /** As written, a corrupt high score is replaced by 0 and the stored setting is lost to false. */
  lemma LaunchCorrupt(content: string)
    requires Corrupt(content)
    ensures var f := Some(Serialize(0, false));
      Launch(Some(content)) == Running(Session(0, 0, false, f))
  {
    RoundTrip(0, false);
  }

  /** As written, a first line without a space aborts start-up at `substring`. */
  lemma LaunchNoSpaceAny(content: string)
    requires HighScoreField(DataText(content)).None?
    ensures Launch(Some(content)) == Crashed(NoSpace, Some(content))
  {
  }

  /**
   * As written, a present record whose high-score field is numeric and fits an int restores
   * exactly that value, e.g. "007 true" gives 7, and the file is left as it is.
   */
  lemma LaunchNumericField(content: string)
    requires var f := HighScoreField(DataText(content));
      f.Some? && Numeric(f.value) && ParseInt(f.value).Some?
    ensures var v := ParseInt(HighScoreField(DataText(content)).value).value;
      var m := SettingField(DataText(content)) == "true";
      Launch(Some(content)) == Running(Session(0, v, m, Some(content)))
  {
  }

  /**
   * As written, start-up fails exactly without a file, on a line without a space, or on a
   * numeric field `parseInt` refuses; otherwise 0 == score <= highScore <= 2147483647.
   */
  lemma LaunchOutcome(file: Option<string>)
    ensures var r := Launch(file);
      r.Crashed? <==>
        file.None? ||
        var f := HighScoreField(DataText(file.value));
        f.None? || (Numeric(f.value) && ParseInt(f.value).None?)
    ensures var r := Launch(file);
      r.Running? ==> 0 == r.session.score <= r.session.highScore <= MaxInt
  {
    if file.Some? {
      var f := HighScoreField(DataText(file.value));
      if f.Some? && Numeric(f.value) {
        ParseNumeric(f.value);
      }
    }
  }

  /** A first line without a space aborts start-up: "42" has no setting field. */
  lemma LaunchNoSpace()
    ensures Launch(Some("42")) == Crashed(NoSpace, Some("42"))
  {
    assert DataText("42") == "42";
  }

  /** A numeric high score that `parseInt` rejects aborts start-up. */
  lemma LaunchUnparsable(content: string)
    requires var f := HighScoreField(DataText(content));
      f.Some? && Numeric(f.value) && ParseInt(f.value).None?
    ensures Launch(Some(content)) == Crashed(NotAnInt, Some(content))
  {
  }

  /** A high score with a decimal point passes the validator but not `parseInt`. */
  lemma LaunchDecimalHighScore()
    ensures Launch(Some("1.5 true")) == Crashed(NotAnInt, Some("1.5 true"))
  {
    DecimalHighScoreField();
    DecimalHighScoreText();
    LaunchUnparsable("1.5 true");
  }

  /** The high-score field of the line "1.5 true" is "1.5". */
  lemma DecimalHighScoreField()
    ensures HighScoreField(DataText("1.5 true")) == Some("1.5")
  {
    var t := "1.5 true";
    assert forall i | 0 <= i < |t| :: !IsLineEnd(t[i]);
    assert t[..3] == "1.5" && ' ' !in t[..3];
    HighScoreFieldAt(t, 3);
  }

  /** "1.5" passes the validator but not `parseInt`. */
  lemma DecimalHighScoreText()
    ensures Numeric("1.5") && ParseInt("1.5").None?
  {
    var p := "1.5";
    assert IsDigit(p[0]) && !IsDigit(p[1]) && multiset(p)['.'] == 1;
    assert !AllDigits(p) && p[0] != '-' && p[0] != '+';
  }

  /** A record whose high score exceeds the int range passes the validator but not `parseInt`. */
  lemma LaunchOversizedHighScore(h: int, m: bool)
    requires h > MaxInt
    ensures var f := Some(Serialize(h, m));
      Launch(f) == Crashed(NotAnInt, f)
  {
    RoundTrip(h, m);
  }

  /** An empty file reads as " ", whose empty high-score field is corrupt. */
  lemma LaunchEmptyFile()
    ensures Launch(Some("")) == Running(Session(0, 0, false, Some(Serialize(0, false))))
  {
    assert HighScoreField(" ") == Some("");
    LaunchCorrupt("");
  }

  /** Corrected: without a file the program starts at 0 in the Decimal setting and records that. */
  lemma LaunchFixedWithoutRecord()
    ensures var f := Some(Serialize(0, true));
      LaunchFixed(None) == Running(Session(0, 0, true, f))
  {
    RoundTrip(0, true);
  }

  /** Corrected: a corrupt high score is replaced by 0 and the stored setting survives. */
  lemma LaunchFixedCorrupt(content: string)
    requires Corrupt(content)
    ensures var m := SettingField(DataText(content)) == "true";
      LaunchFixed(Some(content)) == Running(Session(0, 0, m, Some(Serialize(0, m))))
  {
  }

  /**
   * Corrected: start-up fails only on a record whose first line has no space or whose
   * numeric high score `parseInt` rejects; otherwise the scores satisfy 0 <= score <= highScore
   * within the int range.
   */
  lemma LaunchFixedOutcome(file: Option<string>)
    ensures var r := LaunchFixed(file);
      r.Crashed? <==>
        file.Some? &&
        var f := HighScoreField(DataText(file.value));
        f.None? || (Numeric(f.value) && ParseInt(f.value).None?)
    ensures var r := LaunchFixed(file);
      r.Running? ==> 0 == r.session.score <= r.session.highScore <= MaxInt
  {
    if file.None? {
      LaunchFixedWithoutRecord();
    } else {
      var f := HighScoreField(DataText(file.value));
      if f.Some? && Numeric(f.value) {
        ParseNumeric(f.value);
      }
    }
  }
}
