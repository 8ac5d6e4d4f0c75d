/** The legal transition table of the persisted order lifecycle. */
module Transitions {
  import opened OrderTypes

  /** The table, row by row: the states `to` that `from` may move to.  Anything else is refused. */
  predicate IsLegal(from: OrderState, to: OrderState) {
    match from
    case Created => to.Validated? || to.Rejected?
    case Validated => to.AwaitingApproval? || to.Approved? || to.Rejected?
    case AwaitingApproval => to.Approved? || to.Rejected? || to.Canceled?
    case Approved => to.Submitting? || to.Canceled?
    case Submitting => to.Acknowledged? || to.Rejected? || to.Unknown?
    case Unknown => to.Acknowledged? || to.Rejected? || to.PartiallyFilled? || to.Filled? || to.Canceled?
    case Acknowledged => to.PartiallyFilled? || to.Filled? || to.CancelPending? || to.Unknown?
    case PartiallyFilled =>
      to.PartiallyFilled? || to.Filled? || to.CancelPending? || to.ProtectionPending? || to.Unknown?
    case Filled => to.ProtectionPending? || to.Closed?
    case ProtectionPending => to.Protected? || to.ProtectionFailed? || to.Unknown?
    case ProtectionFailed => to.ProtectionPending? || to.ExitPending?
    case Protected => to.ExitPending? || to.ProtectionPending?
    case CancelPending => to.Canceled? || to.Filled? || to.PartiallyFilled? || to.Unknown?
    case ExitPending => to.Closed? || to.Unknown? || to.PartiallyFilled?
    case Closed => false
    case Canceled => false
    case Rejected => false
  }

  predicate IsTerminal(s: OrderState) {
    s.Closed? || s.Canceled? || s.Rejected?
  }

  /** The table read the other way: the states each state may be entered from. */
  lemma {:induction false} EnteredFrom(from: OrderState, to: OrderState)
    ensures IsLegal(from, to) <==>
      match to
      case Created => false
      case Validated => from == Created
      case AwaitingApproval => from == Validated
      case Approved => from == Validated || from == AwaitingApproval
      case Submitting => from == Approved
      case Acknowledged => from == Submitting || from == Unknown
      case PartiallyFilled =>
        from == Acknowledged || from == PartiallyFilled || from == CancelPending || from == ExitPending || from == Unknown
      case Filled => from == Acknowledged || from == PartiallyFilled || from == CancelPending || from == Unknown
      case ProtectionPending => from == PartiallyFilled || from == Filled || from == Protected || from == ProtectionFailed
      case ProtectionFailed => from == ProtectionPending
      case Protected => from == ProtectionPending
      case CancelPending => from == Acknowledged || from == PartiallyFilled
      case ExitPending => from == Protected || from == ProtectionFailed
      case Unknown =>
        from == Submitting || from == Acknowledged || from == PartiallyFilled || from == CancelPending || from == ProtectionPending
        || from == ExitPending
      case Closed => from == Filled || from == ExitPending
      case Canceled => from == AwaitingApproval || from == Approved || from == CancelPending || from == Unknown
      case Rejected => from == Created || from == Validated || from == AwaitingApproval || from == Submitting || from == Unknown
  {
  }

  /** A path of legal moves. */
  predicate IsPath(path: seq<OrderState>) {
    path != [] && forall i :: 0 < i < |path| ==> IsLegal(path[i - 1], path[i])
  }

  /** No state is a trap: from each at most two legal moves end in a terminal state. */
  lemma {:induction false} NoTrap(s: OrderState) returns (path: seq<OrderState>)
    ensures IsPath(path) && path[0] == s && IsTerminal(path[|path| - 1]) && |path| <= 3
  {
    match s
    case Created => path := [s, Rejected];
    case Validated => path := [s, Rejected];
    case AwaitingApproval => path := [s, Rejected];
    case Approved => path := [s, Canceled];
    case Submitting => path := [s, Rejected];
    case Unknown => path := [s, Canceled];
    case Acknowledged => path := [s, CancelPending, Canceled];
    case PartiallyFilled => path := [s, CancelPending, Canceled];
    case Filled => path := [s, Closed];
    case ProtectionPending => path := [s, Unknown, Canceled];
    case ProtectionFailed => path := [s, ExitPending, Closed];
    case Protected => path := [s, ExitPending, Closed];
    case CancelPending => path := [s, Canceled];
    case ExitPending => path := [s, Closed];
    case Closed => path := [s];
    case Canceled => path := [s];
    case Rejected => path := [s];
  }

  /** The terminal states are exactly those with no way out. */
  lemma {:induction false} TerminalIff(s: OrderState)
    ensures IsTerminal(s) <==> forall to :: !IsLegal(s, to)
  {
    if !IsTerminal(s) {
      var path := NoTrap(s);
      assert IsLegal(path[0], path[1]);
    }
  }
}
