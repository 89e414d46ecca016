/** The protocol vocabulary shared by the RMB coordinator, the DCN units and ADM
    (templates/bank_dcn/internal/contracts/messages.go). */
module Contracts {
  import opened Common

  datatype Direction = Debit | Credit

  /** A sub-transaction action. Any text the switch statements do not list is `Other`. */
  datatype Action = DebitAction | CreditAction | CompensateDebit | CompensateCredit | Other(name: string)

  /** The coordinator recognises a compensation by its prefix alone. */
  predicate IsCompensation(a: Action) {
    match a
    case CompensateDebit => true
    case CompensateCredit => true
    case Other(name) => "COMPENSATE_" <= name
    case _ => false
  }

  /** So a step of an action the units do not know counts as a compensation exactly when its name starts like one. */
  lemma PrefixDecides(name: string)
    ensures IsCompensation(Other(name)) <==> exists rest :: name == "COMPENSATE_" + rest
  {
    var prefix := "COMPENSATE_";
    if prefix <= name { assert name == prefix + name[|prefix|..]; }
  }

  /** (is the journal key suffixed with ":comp", fund direction), or None for an unknown action. */
  function StepDirection(a: Action): (r: Option<(bool, Direction)>) {
    match a
    case DebitAction => Some((false, Debit))
    case CreditAction => Some((false, Credit))
    case CompensateDebit => Some((true, Credit))
    case CompensateCredit => Some((true, Debit))
    case Other(_) => None
  }

  function ReverseAction(a: Action): (r: Option<Action>) {
    match a
    case DebitAction => Some(CompensateDebit)
    case CreditAction => Some(CompensateCredit)
    case _ => None
  }

  /** The signed effect of a movement on a balance. */
  function Delta(dir: Direction, amount: int): int {
    if dir.Debit? then -amount else amount
  }

  /** A reversed action is a compensation under the other journal key, and undoes the movement exactly. */
  lemma ReverseUndoes(a: Action, amount: int)
    requires ReverseAction(a).Some?
    ensures IsCompensation(ReverseAction(a).value) && !IsCompensation(a)
    ensures StepDirection(a).Some? && StepDirection(ReverseAction(a).value).Some?
    ensures !StepDirection(a).value.0 && StepDirection(ReverseAction(a).value).value.0
    ensures Delta(StepDirection(a).value.1, amount)
         == -Delta(StepDirection(ReverseAction(a).value).value.1, amount)
  {
  }
}
