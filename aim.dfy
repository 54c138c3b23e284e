/** The client's and the server's aim rules side by side. */
module Aiming {
  import Controls
  import ServerGame

  /**
   * The client's aim rule agrees with the server's except when the mouse is exactly on the centre,
   * where the client faces right and the server left.
   */
  lemma AimAgreesWithServer(dx: int, dy: int)
    ensures (dx, dy) != (0, 0) ==> Controls.AimFacing(dx as real, dy as real) == ServerGame.AimFacing(dx, dy)
    ensures Controls.AimFacing(0.0, 0.0) == "right" && ServerGame.AimFacing(0, 0) == "left"
  {
  }
}
