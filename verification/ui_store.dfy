/** The user-interface preference store: one flag that forces the lite
    site. Persistence to local storage is not modelled. */
module UiStore {
  datatype UiState = UiState(forceLiteMode: bool)

  /** The state before any preference is set. */
  const Initial: UiState := UiState(false)

  /** `setForceLiteMode(force)`. */
  function SetForceLiteMode(s: UiState, force: bool): (r: UiState)
    ensures r.forceLiteMode == force
  {
    s.(forceLiteMode := force)
  }

  /** `toggleMode`: the flag flips. */
  function ToggleMode(s: UiState): (r: UiState)
    ensures r.forceLiteMode != s.forceLiteMode
  {
    s.(forceLiteMode := !s.forceLiteMode)
  }

  /** Toggling twice restores the state; toggling is setting the negated
      flag; setting is idempotent and the last setting wins. */
  lemma ToggleLaws(s: UiState, a: bool, b: bool)
    ensures ToggleMode(ToggleMode(s)) == s
    ensures ToggleMode(s) == SetForceLiteMode(s, !s.forceLiteMode)
    ensures SetForceLiteMode(SetForceLiteMode(s, a), b) == SetForceLiteMode(s, b)
    ensures SetForceLiteMode(s, s.forceLiteMode) == s
    ensures !Initial.forceLiteMode && ToggleMode(Initial).forceLiteMode
  {
  }
}
