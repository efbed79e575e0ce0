/** The settings handlers of src/components/Settings.jsx. Each returns the
    partial settings it hands to `updateSettings`, or `None` when it issues
    no update. */
module SettingsPanel {
  import opened Wrappers
  import opened Seqs
  import opened ProgressStore

  const NoChange: SettingsPatch := SettingsPatch(None, None, None, None, None)

  /** `handleModeToggle`: drop an enabled mode, append a disabled one, and
      send the new list only when it is not empty. */
  function HandleModeToggle(enabledModes: seq<string>, mode: string): (r: Option<SettingsPatch>)
    ensures r.None? <==> mode in enabledModes && forall m :: m in enabledModes ==> m == mode
    ensures r.Some? ==> r.value == NoChange.(enabledModes := r.value.enabledModes) && r.value.enabledModes.Some?
    ensures r.Some? ==> var modes := r.value.enabledModes.value;
              && |modes| > 0
              && (mode in modes <==> mode !in enabledModes)
              && (forall m :: m != mode ==> (m in modes <==> m in enabledModes))
              && (mode !in enabledModes ==> modes == enabledModes + [mode])
  {
    var modes := Toggle(enabledModes, mode);
    if |modes| > 0 then
      assert modes[0] in modes;
      Some(NoChange.(enabledModes := Some(modes)))
    else
      None
  }

  /** With no mode listed twice, the only toggle that issues no update is
      disabling the one mode left. */
  lemma OnlyLastModeRefused(enabledModes: seq<string>, mode: string)
    requires Distinct(enabledModes)
    ensures HandleModeToggle(enabledModes, mode).None? <==> enabledModes == [mode]
  {
    if HandleModeToggle(enabledModes, mode).None? {
      assert enabledModes[0] == mode;
    }
  }

  /** Applying a mode toggle to settings with modes enabled never leaves
      none enabled. */
  lemma LastModeStays(p: Progress, mode: string)
    requires |p.settings.enabledModes| > 0
    ensures var patch := HandleModeToggle(p.settings.enabledModes, mode);
            |(if patch.Some? then UpdateSettings(p, patch.value) else p).settings.enabledModes| > 0
  {
  }

  /** `handleDifficultyChange`: only the difficulty is sent. */
  function HandleDifficultyChange(difficulty: string): (r: SettingsPatch)
    ensures r == NoChange.(difficulty := Some(difficulty))
  {
    NoChange.(difficulty := Some(difficulty))
  }

  /** `handleQuestionCountChange`: only the session length is sent. */
  function HandleQuestionCountChange(count: int): (r: SettingsPatch)
    ensures r == NoChange.(questionsPerSession := Some(count))
  {
    NoChange.(questionsPerSession := Some(count))
  }

  /** A difficulty change touches nothing but the difficulty. */
  lemma DifficultyChangeIsolated(p: Progress, difficulty: string)
    ensures var r := UpdateSettings(p, HandleDifficultyChange(difficulty));
            r == p.(settings := p.settings.(difficulty := difficulty))
  {
  }

  /** A session-length change touches nothing but the session length. */
  lemma QuestionCountChangeIsolated(p: Progress, count: int)
    ensures var r := UpdateSettings(p, HandleQuestionCountChange(count));
            r == p.(settings := p.settings.(questionsPerSession := count))
  {
  }
}
