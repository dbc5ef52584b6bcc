// Vocabulary shared by every component: optional values, bytes, the three ways a
// foreign call can end, the lifecycle states and their transition table.
module Basics {
  datatype Option<+T> = None | Some(value: T)

  newtype byte = b: int | 0 <= b < 256

  /** How a call into the hypervisor, the store or the guest ended. */
  datatype Reply = Yes | No | Raises

  /**
    A call that may change the host: what it reported, whether its effect
    happened, and whether the differencing disk was touched along the way
    (created by create_vm, deleted by a remove_vm that removes storage).
   */
  datatype Answer = Answer(reply: Reply, done: bool, disk: bool)

  datatype BunkerState =
    | Initializing | Ready | Active | Terminating
    | Decontaminating | Destroyed | Quarantine | Error

  /** The table of valid transitions. */
  function Successors(s: BunkerState): set<BunkerState> {
    match s
    case Initializing => {Ready, Error}
    case Ready => {Active, Terminating, Error}
    case Active => {Terminating, Quarantine, Error}
    case Terminating => {Decontaminating, Error}
    case Decontaminating => {BunkerState.Destroyed, Error}
    case Destroyed => {Initializing}
    case Quarantine => {BunkerState.Destroyed, Error}
    case Error => {BunkerState.Destroyed}
  }

  function StateName(s: BunkerState): string {
    match s
    case Initializing => "INITIALIZING"
    case Ready => "READY"
    case Active => "ACTIVE"
    case Terminating => "TERMINATING"
    case Decontaminating => "DECONTAMINATING"
    case Destroyed => "DESTROYED"
    case Quarantine => "QUARANTINE"
    case Error => "ERROR"
  }

  /** Looks a state up by its name; an unknown name has no state. */
  function ParseState(name: string): (r: Option<BunkerState>)
    ensures forall s :: StateName(s) == name <==> r == Some(s)
  {
    if name == "INITIALIZING" then Some(Initializing)
    else if name == "READY" then Some(Ready)
    else if name == "ACTIVE" then Some(Active)
    else if name == "TERMINATING" then Some(Terminating)
    else if name == "DECONTAMINATING" then Some(Decontaminating)
    else if name == "DESTROYED" then Some(BunkerState.Destroyed)
    else if name == "QUARANTINE" then Some(Quarantine)
    else if name == "ERROR" then Some(Error)
    else None
  }

  /** ASCII whitespace: the blank, the control characters from tab to carriage return, and the four separators. */
  predicate Space(c: char) { c == ' ' || 9 <= c as int <= 13 || 28 <= c as int <= 31 }

  /** ASCII whitespace removed at both ends. */
  function Strip(s: string): string
    decreases |s|
  {
    if s != "" && Space(s[0]) then Strip(s[1..])
    else if s != "" && Space(s[|s| - 1]) then Strip(s[..|s| - 1])
    else s
  }

  /** ASCII letters in upper case. */
  function Upper(s: string): string {
    seq(|s|, i requires 0 <= i < |s| => if 'a' <= s[i] <= 'z' then ((s[i] as int) - 32) as char else s[i])
  }

  function Adding<T(==)>(s: set<T>, added: bool, x: T): set<T> { if added then s + {x} else s }

  function Dropping<T(==)>(s: set<T>, gone: bool, x: T): set<T> { if gone then s - {x} else s }

  /** No element occurs twice. */
  ghost predicate Distinct<T>(s: seq<T>) {
    forall i, j :: 0 <= i < j < |s| ==> s[i] != s[j]
  }
}
