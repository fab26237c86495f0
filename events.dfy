/**
 * The identities of the application's modes and the input events the
 * substrate delivers: key codes and mouse buttons (src/lib.rs, ggez).
 */
module Events {
  /** The modes the application manager switches between. */
  datatype States = StartScreen | Game | Pause | NextLevel | Victory | Quit | Paint

  /**
   * The key codes the core reacts to, plus every other key as `OtherKey`.
   * `Equals` and `Subtract` are the `+` and `-` keys of the editor.
   */
  datatype Key =
    | Escape | Equals | Subtract
    | H | I | J | K | L | N | O | Q | S | W | X
    | OtherKey(code: nat)

  datatype MouseButton = Left | Right | Middle | OtherButton(code: nat)
}
