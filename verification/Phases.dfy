/** The phases a room goes through. */
module Phases {
  datatype Phase = Lobby | Contract | Timer | Result | Closed

  function Rank(p: Phase): nat {
    match p
    case Lobby => 0
    case Contract => 1
    case Timer => 2
    case Result => 3
    case Closed => 4
  }
}
