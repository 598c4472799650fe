/** A statement in its transaction: what becomes of the transaction, and of the
    client it ran on
    (packages/engine/src/pool/bounded-statement.ts). */
module Bounded {

  datatype Command = Begin | Statement | Commit | Rollback

  /** The server's end of the connection: no transaction, one open, one that has
      failed and refuses everything but its end, or no telling. */
  datatype Session = Idle | Open | Aborted | Lost

  /** How a command went: done; refused, by a server that is still there; or cut
      off, before it took effect or after. */
  datatype Luck = Done | RefusedBy | CutOff(late: bool)

  datatype Release = Clean | Destroyed

  /** A client of the pool, and everything that happens to it. */
  datatype Connection = Connection(session: Session, commits: nat, releases: seq<Release>)

  const CHECKED_OUT := Connection(Idle, 0, [])

  /** What one command does. A connection once lost answers nothing. */
  function Sent(c: Connection, command: Command, luck: Luck): (Connection, bool) {
    if c.session == Lost then (c, false)
    else if luck.CutOff? then
      (c.(session := Lost, commits := if command == Commit && luck.late && c.session == Open then c.commits + 1 else c.commits),
       false)
    else
      match command
      case Begin => if luck.Done? then (c.(session := Open), true) else (c.(session := Aborted), false)
      case Statement =>
        if luck.Done? && c.session == Open then (c, true) else (c.(session := Aborted), false)
      case Commit =>
        if luck.Done? && c.session == Open then (c.(session := Idle, commits := c.commits + 1), true)
        else (c.(session := Idle), false)
      case Rollback => if luck.Done? then (c.(session := Idle), true) else (c, false)
  }

  class PoolClient {
    var state: Connection
    /** What will go wrong, command by command. */
    const fate: nat -> Luck
    var commands: nat

    constructor (fate: nat -> Luck)
      ensures state == CHECKED_OUT && commands == 0 && this.fate == fate
    {
      state, commands, this.fate := CHECKED_OUT, 0, fate;
    }

    method Query(command: Command) returns (ok: bool)
      modifies this
      ensures (state, ok) == Sent(old(state), command, fate(old(commands)))
      ensures commands == old(commands) + 1
    {
      var after, went := Sent(state, command, fate(commands)).0, Sent(state, command, fate(commands)).1;
      state, commands, ok := after, commands + 1, went;
    }

    method GiveBack(how: Release)
      modifies this
      ensures state == old(state).(releases := old(state).releases + [how]) && commands == old(commands)
    {
      state := state.(releases := state.releases + [how]);
    }
  }

  /** Rolled back and returned; or, if that cannot be said to have happened,
      closed rather than pooled. */
  method Abandon(client: PoolClient) returns (how: Release)
    modifies client
    ensures client.state.commits == old(client.state.commits)
    ensures client.state.releases == old(client.state.releases) + [how]
    ensures how == Clean <==> old(client.state.session) != Lost && client.fate(old(client.commands)) == Done
    ensures how == Clean ==> client.state.session == Idle
    ensures client.commands == old(client.commands) + 1
  {
    var rolledBack := client.Query(Rollback);
    how := if rolledBack then Clean else Destroyed;
    client.GiveBack(how);
  }

  /** Which of the three commands, sent from the n-th on, is the first not done; 3
      if all are. */
  function FirstFailed(fate: nat -> Luck, n: nat): nat {
    if fate(n) != Done then 0 else if fate(n + 1) != Done then 1 else if fate(n + 2) != Done then 2 else 3
  }

  /** It answers exactly when the beginning, the statement and the commit are all
      done; one that fails is rolled back next, and its client is pooled exactly
      when that is done, on a connection the failure did not cut off.

      On every path: the client goes back exactly once; it goes back to the pool
      only with no transaction left on it; and an answer means the statement was
      committed. A failure means it was not, unless the connection was lost on
      the commit itself and took the answer with it. */
  method RunBounded(client: PoolClient) returns (ok: bool)
    requires client.state == CHECKED_OUT
    modifies client
    ensures ok <==> FirstFailed(client.fate, old(client.commands)) == 3
    ensures ok ==> client.commands == old(client.commands) + 3
    ensures !ok ==>
      var failed := old(client.commands) + FirstFailed(client.fate, old(client.commands));
      && client.commands == failed + 2
      && (client.state.releases == [Clean] <==>
            !client.fate(failed).CutOff? && client.fate(failed + 1) == Done)
    ensures |client.state.releases| == 1
    ensures client.state.releases == [Clean] ==> client.state.session == Idle
    ensures ok ==> client.state.commits == 1 && client.state.releases == [Clean]
    ensures !ok && client.state.commits > 0 ==>
            client.state.commits == 1 && client.state.releases == [Destroyed] &&
            client.fate(old(client.commands) + 2).CutOff? && client.fate(old(client.commands) + 2).late
  {
    var begun := client.Query(Begin);
    if begun {
      var ran := client.Query(Statement);
      if ran {
        var committed := client.Query(Commit);
        if committed {
          client.GiveBack(Clean);
          return true;
        }
        var how := Abandon(client);
        assert client.state.releases[0] == how;
        return false;
      }
    }
    var how := Abandon(client);
    assert client.state.releases[0] == how;
    return false;
  }
}
