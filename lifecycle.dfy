/**
 * The booking lifecycle: the six statuses, the `TRANSITIONS` table and the
 * `TERMINAL_STATES` list of server/store.js, and the names the source uses for
 * the statuses (the store compares statuses as strings).
 */
module Lifecycle {
  import opened Wrappers

  datatype Status = Pending | Assigned | InProgress | Completed | Cancelled | Failed

  /** The status as the source spells it. */
  function Name(s: Status): string
  {
    match s
    case Pending => "PENDING"
    case Assigned => "ASSIGNED"
    case InProgress => "IN_PROGRESS"
    case Completed => "COMPLETED"
    case Cancelled => "CANCELLED"
    case Failed => "FAILED"
  }

  /** The status a name stands for, if any. */
  function Parse(name: string): (r: Option<Status>)
    ensures r.Some? ==> Name(r.value) == name
    ensures r.None? ==> forall s: Status :: Name(s) != name
  {
    if name == "PENDING" then Some(Pending)
    else if name == "ASSIGNED" then Some(Assigned)
    else if name == "IN_PROGRESS" then Some(InProgress)
    else if name == "COMPLETED" then Some(Completed)
    else if name == "CANCELLED" then Some(Cancelled)
    else if name == "FAILED" then Some(Failed)
    else None
  }

  /** Distinct statuses have distinct names, so a name determines its status. */
  lemma ParseName(s: Status)
    ensures Parse(Name(s)) == Some(s)
  {
  }

  /** `TRANSITIONS`: the targets allowed from each status, in the table's order. */
  function Transitions(s: Status): (r: seq<Status>)
    ensures r == [] <==> s in {Completed, Cancelled, Failed}
    ensures Pending !in r && s !in r
    ensures forall k, l :: 0 <= k < l < |r| ==> r[k] != r[l]
  {
    match s
    case Pending => [Assigned, Cancelled]
    case Assigned => [InProgress, Cancelled, Failed]
    case InProgress => [Completed, Failed]
    case Completed => []
    case Cancelled => []
    case Failed => []
  }

  predicate Allowed(from: Status, to: Status)
  {
    to in Transitions(from)
  }

  /** The names of a list of statuses, in order. */
  function Names(ss: seq<Status>): seq<string>
  {
    seq(|ss|, k requires 0 <= k < |ss| => Name(ss[k]))
  }

  /** `TRANSITIONS[s]` as the list of strings the store searches with `includes`. */
  function TargetNames(s: Status): seq<string>
  {
    Names(Transitions(s))
  }

  /**
   * Searching the string list for a requested name accepts exactly the names
   * of the statuses the table allows: any other string, status or not, is refused.
   */
  lemma IncludesIffAllowed(s: Status, name: string)
    ensures name in TargetNames(s) <==> Parse(name).Some? && Allowed(s, Parse(name).value)
  {
    var ts := Transitions(s);
    if name in TargetNames(s) {
      var k :| 0 <= k < |ts| && TargetNames(s)[k] == name;
      ParseName(ts[k]);
    }
    if Parse(name).Some? && Allowed(s, Parse(name).value) {
      var k :| 0 <= k < |ts| && ts[k] == Parse(name).value;
      assert TargetNames(s)[k] == name;
    }
  }

  /** `TERMINAL_STATES`. */
  const TerminalStates: seq<string> := ["COMPLETED", "CANCELLED", "FAILED"]

  /** The list names exactly the statuses whose table entry is empty. */
  lemma TerminalStatesMatchTable()
    ensures forall s: Status :: Name(s) in TerminalStates <==> Transitions(s) == []
  {
    forall s: Status
      ensures Name(s) in TerminalStates <==> Transitions(s) == []
    {
      ParseName(s);
    }
  }

  /** `isTerminalState`: the list holds exactly the names whose table entry is empty. */
  function IsTerminalState(name: string): (b: bool)
    ensures b <==> Parse(name).Some? && Transitions(Parse(name).value) == []
  {
    name in TerminalStates
  }

  /** Nothing leaves a terminal status. */
  lemma TerminalIsClosed(s: Status, t: Status)
    requires IsTerminalState(Name(s))
    ensures !Allowed(s, t)
  {
    ParseName(s);
  }

  /**
   * Position of a status along the lifecycle. Every allowed transition moves
   * strictly forward, so the table has no cycle and PENDING is never re-entered.
   */
  function Rank(s: Status): nat
  {
    match s
    case Pending => 0
    case Assigned => 1
    case InProgress => 2
    case _ => 3
  }

  lemma AllowedMovesForward(from: Status, to: Status)
    requires Allowed(from, to)
    ensures Rank(from) < Rank(to) && to != Pending
  {
  }
}
