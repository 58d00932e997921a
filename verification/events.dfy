/** The event and hit-test enumerations of `events.rs` and `system/mod.rs`. */
module Events {

  /** Classification of a window-local point (`HitResult`). */
  datatype HitResult = None | Client | Caption | MinButton | Close

  /** Whether an event may continue to ancestors (`EventResult`). */
  datatype EventResult = NoBubbling | Bubble

  /** Raw window events (`WindowEvent`); coordinates keep their Rust widths
      as plain integers. */
  datatype WindowEvent =
    | NoEvent
    | Quit
    | CloseWindow
    | HideWindow
    | ShowWindow
    | KeyDown(key: nat)
    | KeyUp(key: nat)
    | KeyPress(key: nat)
    | MouseMove(x: nat, y: nat)
    | MouseDown(x: nat, y: nat)
    | MouseUp(x: nat, y: nat)
    | MousePress(x: nat, y: nat)
    | WindowMove(wx: int, wy: int)
    | WindowResize(width: nat, height: nat)
    | CharInput(target: nat, ch: char)

  /** Events surfaced to the application (`UserEvent`). */
  datatype UserEvent =
    | NoUserEvent
    | UserQuit
    | ControlClicked(uid: nat)
    | UserWindowResize(width: nat, height: nat)
}
