/** OAuth session rows and the statements run on them. */
module OAuthTable {
  import opened Options

  type Time = int
  type Id = string

  /** Sessions live for ten minutes; times are in seconds. */
  const LIFETIME: Time := 600

  datatype Session = Session(
    state: string,
    accountId: Option<Id>,
    expiresAt: Time,
    consumedAt: Option<Time>)

  type Sessions = map<Id, Session>

  /** The UPDATE touches a row: it is there and not consumed yet. */
  predicate CanConsume(sessions: Sessions, id: Id) {
    id in sessions && sessions[id].consumedAt.None?
  }

  function Consumed(sessions: Sessions, id: Id, now: Time): Sessions {
    if CanConsume(sessions, id) then sessions[id := sessions[id].(consumedAt := Some(now))] else sessions
  }

  function Unexpired(sessions: Sessions, now: Time): Sessions {
    map id | id in sessions && sessions[id].expiresAt >= now :: sessions[id]
  }

  /** The state column is unique: an INSERT of a known state fails. */
  predicate StateFree(sessions: Sessions, state: string) {
    forall id | id in sessions :: sessions[id].state != state
  }

  /** `oauth_sessions`, one method a statement. */
  class Table {
    var sessions: Sessions

    constructor ()
      ensures sessions == map[]
    {
      sessions := map[];
    }

    /** `get_oauth_session_by_state`. */
    method GetByState(state: string) returns (found: Option<Id>)
      ensures found.None? ==> StateFree(sessions, state)
      ensures found.Some? ==> found.value in sessions && sessions[found.value].state == state
    {
      var todo := sessions.Keys;
      while todo != {}
        invariant todo <= sessions.Keys
        invariant forall id | id in sessions && id !in todo :: sessions[id].state != state
        decreases |todo|
      {
        var id :| id in todo;
        if sessions[id].state == state { return Some(id); }
        todo := todo - {id};
      }
      return None;
    }

    /** `mark_oauth_session_consumed`: whether a row was affected. */
    method MarkConsumed(id: Id, now: Time) returns (affected: bool)
      modifies this
      ensures affected == old(CanConsume(sessions, id))
      ensures sessions == old(Consumed(sessions, id, now))
    {
      affected := id in sessions && sessions[id].consumedAt.None?;
      if affected {
        sessions := sessions[id := sessions[id].(consumedAt := Some(now))];
      }
    }

    /** `delete_oauth_session`. */
    method Delete(id: Id) returns (affected: bool)
      modifies this
      ensures affected == (id in old(sessions))
      ensures sessions == old(sessions) - {id}
    {
      affected := id in sessions;
      sessions := sessions - {id};
    }

    /** `delete_expired_oauth_sessions`; a session that expires now is kept. */
    method DeleteExpired(now: Time)
      modifies this
      ensures sessions == old(Unexpired(sessions, now))
      ensures forall id :: id in sessions <==> id in old(sessions) && old(sessions)[id].expiresAt >= now
      ensures forall id | id in sessions :: sessions[id] == old(sessions)[id]
    {
      sessions := map id | id in sessions && !(sessions[id].expiresAt < now) :: sessions[id];
    }

    /** `create_oauth_session`, with the fresh id and state the caller drew. */
    method Create(id: Id, state: string, accountId: Option<Id>, now: Time) returns (created: bool)
      requires id !in sessions
      modifies this
      ensures created == old(StateFree(sessions, state))
      ensures sessions ==
        if created then old(sessions)[id := Session(state, accountId, now + LIFETIME, None)] else old(sessions)
    {
      var clash := GetByState(state);
      created := clash.None?;
      if created {
        sessions := sessions[id := Session(state, accountId, now + LIFETIME, None)];
      }
    }
  }
}

/**
 Any number of concurrent `start_authorization` and `complete_authorization` callers, as
 interleaved atomic steps: one statement, one look at the clock or one exchange at a time.
 */
module OAuthProtocol {
  import opened Options
  import opened OAuthTable

  /** Where a caller stands. A completing caller keeps the row it read. */
  datatype Phase =
    | Starting(state: string, accountId: Option<Id>)
    | Creating(state: string, accountId: Option<Id>)
    | Started
    | Reading(state: string)
    | Checking(id: Id, row: Session)
    | Discarding(id: Id)
    | Exchanging(id: Id, row: Session, checkedAt: Time)
    | Consuming(id: Id, row: Session, checkedAt: Time)
    | Writing(id: Id, row: Session, checkedAt: Time)
    | Cleaning(id: Id)
    | Completed(id: Id)
    | Failed

  /** A caller that passed the compare-and-set, with what it had read. */
  datatype Win = Win(id: Id, caller: nat, row: Session, checkedAt: Time, at: Time)

  /** An account created or updated from a session. */
  datatype Write = Write(id: Id, caller: nat, account: Id)

  datatype System = System(
    now: Time,
    sessions: Sessions,
    usedIds: set<Id>,
    accounts: set<Id>,
    callers: map<nat, Phase>,
    wins: seq<Win>,
    writes: seq<Write>)

  datatype Step =
    | Tick(seconds: nat)
    | PurgeExpired(caller: nat)
    | Create(caller: nat, id: Id)
    | Read(caller: nat, found: Option<Id>)
    | Check(caller: nat)
    | Discard(caller: nat)
    | Exchange(caller: nat, ok: bool)
    | Consume(caller: nat)
    | WriteAccount(caller: nat, newId: Id)
    | Clean(caller: nat)
    | Abort(caller: nat)
    | RemoveSession(id: Id)
    | RemoveAccount(account: Id)

  function Move(s: System, caller: nat, phase: Phase): System {
    s.(callers := s.callers[caller := phase])
  }

  /** A step that is not enabled changes nothing. */
  ghost function Next(s: System, step: Step): System {
    match step
    case Tick(seconds) => s.(now := s.now + seconds)
    // Connections are deleted by others, and their sessions with them; so are accounts.
    case RemoveSession(id) => s.(sessions := s.sessions - {id})
    case RemoveAccount(account) => s.(accounts := s.accounts - {account}, sessions := Orphaned(s.sessions, account))
    case _ => if step.caller in s.callers then Act(s, step, s.callers[step.caller]) else s
  }

  /** ON DELETE SET NULL. */
  function Orphaned(sessions: Sessions, account: Id): Sessions {
    map id | id in sessions ::
      if sessions[id].accountId == Some(account) then sessions[id].(accountId := None) else sessions[id]
  }

  ghost function Act(s: System, step: Step, phase: Phase): System
    requires !step.Tick? && !step.RemoveSession? && !step.RemoveAccount?
  {
    match (step, phase)
    case (PurgeExpired(c), Starting(state, account)) =>
      Move(s.(sessions := Unexpired(s.sessions, s.now)), c, Creating(state, account))
    case (Create(c, id), Creating(state, account)) =>
      if id in s.usedIds then s
      else if !StateFree(s.sessions, state) then Move(s, c, Failed)
      else
        Move(s.(sessions := s.sessions[id := Session(state, account, s.now + LIFETIME, None)],
                usedIds := s.usedIds + {id}), c, Started)
    case (Read(c, Some(id)), Reading(state)) =>
      if id in s.sessions && s.sessions[id].state == state then Move(s, c, Checking(id, s.sessions[id])) else s
    case (Read(c, None), Reading(state)) =>
      if StateFree(s.sessions, state) then Move(s, c, Failed) else s
    case (Check(c), Checking(id, row)) =>
      if row.consumedAt.Some? then Move(s, c, Failed)
      else if row.expiresAt <= s.now then Move(s, c, Discarding(id))
      else Move(s, c, Exchanging(id, row, s.now))
    case (Discard(c), Discarding(id)) => Move(s.(sessions := s.sessions - {id}), c, Failed)
    case (Exchange(c, ok), Exchanging(id, row, t)) => Move(s, c, if ok then Consuming(id, row, t) else Failed)
    case (Consume(c), Consuming(id, row, t)) =>
      if CanConsume(s.sessions, id) then
        Move(s.(sessions := Consumed(s.sessions, id, s.now), wins := s.wins + [Win(id, c, row, t, s.now)]),
             c, Writing(id, row, t))
      else Move(s, c, Failed)
    case (WriteAccount(c, newId), Writing(id, row, t)) => (
      match row.accountId
      case Some(account) =>
        if account in s.accounts
        then Move(s.(writes := s.writes + [Write(id, c, account)]), c, Cleaning(id))
        else Move(s, c, Failed)
      case None =>
        if newId in s.accounts then s
        else Move(s.(accounts := s.accounts + {newId}, writes := s.writes + [Write(id, c, newId)]), c, Cleaning(id)))
    // Any statement or lookup can fail; the caller then returns the error.
    case (Abort(c), _) => if phase.Completed? || phase.Started? then s else Move(s, c, Failed)
    case (Clean(c), Cleaning(id)) => Move(s.(sessions := s.sessions - {id}), c, Completed(id))
    case _ => s
  }

  ghost function Run(s: System, steps: seq<Step>): System {
    if steps == [] then s else Next(Run(s, steps[..|steps| - 1]), steps[|steps| - 1])
  }

  /** No sessions yet; every caller is about to start or to complete an authorization. */
  predicate Initial(s: System) {
    s.sessions == map[] && s.usedIds == {} && s.wins == [] && s.writes == []
    && forall c | c in s.callers :: s.callers[c].Starting? || s.callers[c].Reading?
  }

  // ----- the invariant -----

  predicate Won(s: System, id: Id, caller: nat) {
    exists i | 0 <= i < |s.wins| :: s.wins[i].id == id && s.wins[i].caller == caller
  }

  predicate Written(s: System, id: Id, caller: nat) {
    exists i | 0 <= i < |s.writes| :: s.writes[i].id == id && s.writes[i].caller == caller
  }

  /** What a caller's phase says about the table and the history. */
  predicate PhaseOk(s: System, caller: nat, phase: Phase) {
    match phase
    case Checking(id, row) => id in s.usedIds
    case Discarding(id) => id in s.usedIds
    case Exchanging(id, row, t) => id in s.usedIds && t <= s.now && t < row.expiresAt && row.consumedAt.None?
    case Consuming(id, row, t) => id in s.usedIds && t <= s.now && t < row.expiresAt && row.consumedAt.None?
    case Writing(id, row, t) =>
      id in s.usedIds && Won(s, id, caller) && forall i | 0 <= i < |s.writes| :: s.writes[i].id != id
    case Cleaning(id) => id in s.usedIds && Written(s, id, caller)
    case Completed(id) => id in s.usedIds && Written(s, id, caller)
    case _ => true
  }

  /** Each session was won at most once, by a caller that had seen it unexpired, and is marked since. */
  predicate WinsOk(s: System) {
    && (forall i | 0 <= i < |s.wins| ::
          && s.wins[i].id in s.usedIds
          && s.wins[i].checkedAt < s.wins[i].row.expiresAt && s.wins[i].checkedAt <= s.wins[i].at <= s.now
          && s.wins[i].row.consumedAt.None?
          && (s.wins[i].id in s.sessions ==> s.sessions[s.wins[i].id].consumedAt == Some(s.wins[i].at)))
    && (forall i, j | 0 <= i < j < |s.wins| :: s.wins[i].id != s.wins[j].id)
  }

  /** Each session was written from at most once, by the caller that won it. */
  predicate WritesOk(s: System) {
    && (forall i | 0 <= i < |s.writes| :: Won(s, s.writes[i].id, s.writes[i].caller))
    && (forall i, j | 0 <= i < j < |s.writes| :: s.writes[i].id != s.writes[j].id)
  }

  predicate Inv(s: System) {
    && s.sessions.Keys <= s.usedIds
    && WinsOk(s)
    && WritesOk(s)
    && forall c | c in s.callers :: PhaseOk(s, c, s.callers[c])
  }

  lemma InitialInv(s: System)
    requires Initial(s)
    ensures Inv(s)
  {
  }

  /** One win per session: the caller that won it is the only one. */
  lemma WinnerIsUnique(s: System, id: Id, c: nat, d: nat)
    requires WinsOk(s) && Won(s, id, c) && Won(s, id, d)
    ensures c == d
  {
    var i :| 0 <= i < |s.wins| && s.wins[i].id == id && s.wins[i].caller == c;
    var j :| 0 <= j < |s.wins| && s.wins[j].id == id && s.wins[j].caller == d;
  }

  /** Histories only grow; sessions keep their consumption mark or vanish. */
  predicate Extends(s: System, t: System) {
    && s.now <= t.now
    && s.usedIds <= t.usedIds
    && s.wins <= t.wins
    && s.writes <= t.writes
    && (forall id | id in t.sessions && id in s.usedIds ::
          id in s.sessions
          && (s.sessions[id].consumedAt.Some? ==> t.sessions[id].consumedAt == s.sessions[id].consumedAt))
  }

  lemma NextExtends(s: System, step: Step)
    requires s.sessions.Keys <= s.usedIds
    ensures Extends(s, Next(s, step))
  {
  }

  lemma WonStays(s: System, t: System, id: Id, c: nat)
    requires s.wins <= t.wins && Won(s, id, c)
    ensures Won(t, id, c)
  {
    var i :| 0 <= i < |s.wins| && s.wins[i].id == id && s.wins[i].caller == c;
    assert t.wins[i] == s.wins[i];
  }

  lemma WrittenStays(s: System, t: System, id: Id, c: nat)
    requires s.writes <= t.writes && Written(s, id, c)
    ensures Written(t, id, c)
  {
    var i :| 0 <= i < |s.writes| && s.writes[i].id == id && s.writes[i].caller == c;
    assert t.writes[i] == s.writes[i];
  }

  /** A phase stays true of a caller while others act, unless its own session is written from. */
  lemma PhaseStays(s: System, t: System, c: nat, phase: Phase)
    requires PhaseOk(s, c, phase)
    requires s.now <= t.now && s.usedIds <= t.usedIds && s.wins <= t.wins && s.writes <= t.writes
    requires phase.Writing? ==> forall i | |s.writes| <= i < |t.writes| :: t.writes[i].id != phase.id
    ensures PhaseOk(t, c, phase)
  {
    match phase
    case Writing(id, _, _) => WonStays(s, t, id, c);
    case Cleaning(id) => WrittenStays(s, t, id, c);
    case Completed(id) => WrittenStays(s, t, id, c);
    case _ =>
  }

  lemma WritesStay(s: System, t: System)
    requires WritesOk(s) && s.wins <= t.wins && s.writes == t.writes
    ensures WritesOk(t)
  {
    forall i | 0 <= i < |t.writes| ensures Won(t, t.writes[i].id, t.writes[i].caller) {
      WonStays(s, t, s.writes[i].id, s.writes[i].caller);
    }
  }

  /** Steps that win nothing and write nothing. */
  lemma QuietStep(s: System, t: System)
    requires Inv(s)
    requires Extends(s, t) && t.wins == s.wins && t.writes == s.writes
    requires t.sessions.Keys <= t.usedIds
    requires forall id | id in t.sessions && id in s.usedIds ::
      id in s.sessions && t.sessions[id].consumedAt == s.sessions[id].consumedAt
    requires forall c | c in t.callers ::
      (c in s.callers && t.callers[c] == s.callers[c]) || PhaseOk(t, c, t.callers[c])
    ensures Inv(t)
  {
    WritesStay(s, t);
    forall c | c in t.callers ensures PhaseOk(t, c, t.callers[c]) {
      if c in s.callers && t.callers[c] == s.callers[c] {
        PhaseStays(s, t, c, s.callers[c]);
      }
    }
  }

  lemma ConsumeStep(s: System, c: nat)
    requires Inv(s) && c in s.callers && s.callers[c].Consuming?
    ensures Inv(Next(s, Consume(c)))
  {
    var t := Next(s, Consume(c));
    var Consuming(id, row, checkedAt) := s.callers[c];
    if CanConsume(s.sessions, id) {
      assert t.wins[|s.wins|] == Win(id, c, row, checkedAt, s.now);
      assert Won(t, id, c);
      assert forall i | 0 <= i < |s.wins| :: s.wins[i].id != id;
      assert WinsOk(t);
      WritesStay(s, t);
      forall i | 0 <= i < |t.writes| ensures t.writes[i].id != id {
        var k :| 0 <= k < |s.wins| && s.wins[k].id == s.writes[i].id && s.wins[k].caller == s.writes[i].caller;
      }
      forall d | d in t.callers ensures PhaseOk(t, d, t.callers[d]) {
        if d != c { PhaseStays(s, t, d, s.callers[d]); }
      }
    } else {
      QuietStep(s, t);
    }
  }

  lemma WriteStep(s: System, c: nat, newId: Id)
    requires Inv(s) && c in s.callers && s.callers[c].Writing?
    ensures Inv(Next(s, WriteAccount(c, newId)))
  {
    var t := Next(s, WriteAccount(c, newId));
    if t.writes == s.writes {
      QuietStep(s, t);
    } else {
      WriteMade(s, t, s.callers[c].id, c, t.writes[|s.writes|]);
    }
  }

  /** The winner's one write. */
  lemma WriteMade(s: System, t: System, id: Id, c: nat, write: Write)
    requires Inv(s) && c in s.callers && s.callers[c].Writing? && s.callers[c].id == id
    requires write.id == id && write.caller == c && t.writes == s.writes + [write]
    requires t.callers == s.callers[c := Cleaning(id)]
    requires t == s.(accounts := t.accounts, writes := t.writes, callers := t.callers)
    ensures Inv(t)
  {
    WriteRecorded(s, t, id, c, write);
    forall d | d in t.callers ensures PhaseOk(t, d, t.callers[d]) {
      if d != c { OthersWhileWriting(s, t, id, c, d, write); }
    }
  }

  lemma WriteRecorded(s: System, t: System, id: Id, c: nat, write: Write)
    requires WritesOk(s) && Won(s, id, c)
    requires forall i | 0 <= i < |s.writes| :: s.writes[i].id != id
    requires t.wins == s.wins && t.writes == s.writes + [write] && write.id == id && write.caller == c
    ensures WritesOk(t) && Written(t, id, c)
  {
    assert t.writes[|s.writes|] == write;
    forall i | 0 <= i < |t.writes| ensures Won(t, t.writes[i].id, t.writes[i].caller) {
      if i < |s.writes| { WonStays(s, t, s.writes[i].id, s.writes[i].caller); } else { WonStays(s, t, id, c); }
    }
  }

  lemma OthersWhileWriting(s: System, t: System, id: Id, c: nat, d: nat, write: Write)
    requires Inv(s) && d in s.callers && d != c && Won(s, id, c)
    requires s.now <= t.now && s.usedIds <= t.usedIds && t.wins == s.wins
    requires t.writes == s.writes + [write] && write.id == id
    ensures PhaseOk(t, d, s.callers[d])
  {
    var phase := s.callers[d];
    if phase.Writing? && phase.id == id { WinnerIsUnique(s, id, c, d); }
    PhaseStays(s, t, d, phase);
  }

  lemma NextKeepsInv(s: System, step: Step)
    requires Inv(s)
    ensures Inv(Next(s, step))
  {
    var t := Next(s, step);
    NextExtends(s, step);
    if step.Consume? && step.caller in s.callers && s.callers[step.caller].Consuming? {
      ConsumeStep(s, step.caller);
    } else if step.WriteAccount? && step.caller in s.callers && s.callers[step.caller].Writing? {
      WriteStep(s, step.caller, step.newId);
    } else {
      QuietHistory(s, step);
      QuietPhase(s, step);
      QuietStep(s, t);
    }
  }

  /** The steps other than a compare-and-set and a write. */
  predicate Quiet(s: System, step: Step) {
    && !(step.Consume? && step.caller in s.callers && s.callers[step.caller].Consuming?)
    && !(step.WriteAccount? && step.caller in s.callers && s.callers[step.caller].Writing?)
  }

  lemma QuietHistory(s: System, step: Step)
    requires Inv(s) && Quiet(s, step)
    ensures var t := Next(s, step);
            && t.wins == s.wins && t.writes == s.writes && t.sessions.Keys <= t.usedIds
            && forall id | id in t.sessions && id in s.usedIds ::
                 id in s.sessions && t.sessions[id].consumedAt == s.sessions[id].consumedAt
  {
  }

  predicate OfCaller(step: Step, c: nat) {
    !step.Tick? && !step.RemoveSession? && !step.RemoveAccount? && step.caller == c
  }

  /** A step moves no caller but its own. */
  lemma OthersStay(s: System, step: Step)
    ensures forall c | c in Next(s, step).callers ::
              c in s.callers && (Next(s, step).callers[c] == s.callers[c] || OfCaller(step, c))
  {
  }

  lemma MovedPhase(s: System, step: Step, c: nat)
    requires Inv(s) && Quiet(s, step) && OfCaller(step, c) && c in s.callers
    ensures var t := Next(s, step);
            c in t.callers && (t.callers[c] == s.callers[c] || PhaseOk(t, c, t.callers[c]))
  {
  }

  lemma QuietPhase(s: System, step: Step)
    requires Inv(s) && Quiet(s, step)
    ensures var t := Next(s, step);
            forall c | c in t.callers :: (c in s.callers && t.callers[c] == s.callers[c]) || PhaseOk(t, c, t.callers[c])
  {
    OthersStay(s, step);
    var t := Next(s, step);
    forall c | c in t.callers && t.callers[c] != s.callers[c] ensures PhaseOk(t, c, t.callers[c]) {
      MovedPhase(s, step, c);
    }
  }

  lemma {:induction false} RunKeepsInv(s: System, steps: seq<Step>)
    requires Inv(s)
    ensures Inv(Run(s, steps))
  {
    if steps != [] {
      RunKeepsInv(s, steps[..|steps| - 1]);
      NextKeepsInv(Run(s, steps[..|steps| - 1]), steps[|steps| - 1]);
    }
  }

  // ----- the theorems -----

  /** The caller passed the compare-and-set after it had seen the session unexpired and unconsumed. */
  predicate WonInTime(s: System, id: Id, caller: nat) {
    exists k | 0 <= k < |s.wins| ::
      s.wins[k].id == id && s.wins[k].caller == caller
      && s.wins[k].checkedAt < s.wins[k].row.expiresAt && s.wins[k].row.consumedAt.None?
  }

  /**
   Sessions are single-use under every interleaving: at most one caller passes the compare-and-set
   of a session and at most one account is created or updated from it, by that caller, which saw
   the session unexpired and unconsumed at its check.
   */
  lemma SingleUse(s: System, steps: seq<Step>)
    requires Initial(s)
    ensures var t := Run(s, steps);
            && (forall i, j | 0 <= i < j < |t.wins| :: t.wins[i].id != t.wins[j].id)
            && (forall i, j | 0 <= i < j < |t.writes| :: t.writes[i].id != t.writes[j].id)
            && (forall i | 0 <= i < |t.writes| :: WonInTime(t, t.writes[i].id, t.writes[i].caller))
  {
    InitialInv(s);
    RunKeepsInv(s, steps);
    var t := Run(s, steps);
    forall i | 0 <= i < |t.writes| ensures WonInTime(t, t.writes[i].id, t.writes[i].caller) {
      WinnersWereInTime(t, t.writes[i].id, t.writes[i].caller);
    }
  }

  lemma WinnersWereInTime(s: System, id: Id, caller: nat)
    requires WinsOk(s) && Won(s, id, caller)
    ensures WonInTime(s, id, caller)
  {
    var k :| 0 <= k < |s.wins| && s.wins[k].id == id && s.wins[k].caller == caller;
    assert s.wins[k].checkedAt < s.wins[k].row.expiresAt;
  }

  /** Two callers never both complete the same session, and a completed one did write its account. */
  lemma OneCompletion(s: System, steps: seq<Step>, c: nat, d: nat)
    requires Initial(s)
    requires var t := Run(s, steps);
             c in t.callers && d in t.callers && t.callers[c].Completed? && t.callers[d].Completed?
             && t.callers[c].id == t.callers[d].id
    ensures c == d && Written(Run(s, steps), Run(s, steps).callers[c].id, c)
  {
    InitialInv(s);
    RunKeepsInv(s, steps);
    var t := Run(s, steps);
    var id := t.callers[c].id;
    assert PhaseOk(t, c, t.callers[c]) && PhaseOk(t, d, t.callers[d]);
    var i :| 0 <= i < |t.writes| && t.writes[i].id == id && t.writes[i].caller == c;
    var j :| 0 <= j < |t.writes| && t.writes[j].id == id && t.writes[j].caller == d;
    assert i == j;
  }

  lemma ExtendsTransitive(a: System, b: System, c: System)
    requires Extends(a, b) && Extends(b, c)
    ensures Extends(a, c)
  {
  }

  /**
   From any point of a run on, a consumption mark never reverts and a session that is gone, or was
   deleted and whose id is spent, never comes back; the histories of wins and writes only grow.
   */
  lemma {:induction false} MarksAndDeletionsStay(s: System, steps: seq<Step>, more: seq<Step>)
    requires Initial(s)
    ensures Extends(Run(s, steps), Run(s, steps + more))
  {
    if more == [] {
      assert steps + more == steps;
    } else {
      var front, last := more[..|more| - 1], more[|more| - 1];
      MarksAndDeletionsStay(s, steps, front);
      InitialInv(s);
      RunKeepsInv(s, steps + front);
      OneMoreStep(s, steps, front, last);
      assert more == front + [last];
      assert steps + (front + [last]) == (steps + front) + [last];
    }
  }

  lemma OneMoreStep(s: System, steps: seq<Step>, front: seq<Step>, last: Step)
    requires Inv(Run(s, steps + front)) && Extends(Run(s, steps), Run(s, steps + front))
    ensures Extends(Run(s, steps), Run(s, (steps + front) + [last]))
  {
    var all := (steps + front) + [last];
    assert all[..|all| - 1] == steps + front;
    var mid := Run(s, steps + front);
    NextExtends(mid, last);
    ExtendsTransitive(Run(s, steps), mid, Next(mid, last));
  }

  /** A caller at its compare-and-set wins exactly when the row is there and unconsumed. */
  lemma ConsumeWinsIff(s: System, c: nat)
    requires c in s.callers && s.callers[c].Consuming?
    ensures |Next(s, Consume(c)).wins| > |s.wins| <==> CanConsume(s.sessions, s.callers[c].id)
    ensures Next(s, Consume(c)).callers[c].Writing? <==> CanConsume(s.sessions, s.callers[c].id)
  {
  }

  lemma {:induction false} RunAppend(s: System, steps: seq<Step>, more: seq<Step>)
    ensures Run(s, steps + more) == Run(Run(s, steps), more)
  {
    if more == [] {
      assert steps + more == steps;
    } else {
      var front, last := more[..|more| - 1], more[|more| - 1];
      RunAppend(s, steps, front);
      var all := steps + more;
      assert all[..|all| - 1] == steps + front && all[|all| - 1] == last;
    }
  }

  lemma OneStep(s: System, step: Step)
    ensures Run(s, [step]) == Next(s, step)
  {
    assert [step][..0] == [];
  }

  lemma ThreeSteps(s: System, a: Step, b: Step, c: Step)
    ensures Run(s, [a] + [b] + [c]) == Next(Next(Next(s, a), b), c)
  {
    RunAppend(s, [a] + [b], [c]);
    RunAppend(s, [a], [b]);
    OneStep(s, a);
    OneStep(Next(s, a), b);
    OneStep(Next(Next(s, a), b), c);
  }

  /** One caller starts an authorization and another reads its session and finds it in order. */
  function Opened(starter: nat, c: nat, id: Id): seq<Step> {
    [PurgeExpired(starter)] + [Create(starter, id)] + [Read(c, Some(id))] + [Check(c)]
  }

  /** The exchange takes its time; then the session is consumed. */
  function Exchanged(c: nat, seconds: nat): seq<Step> {
    [Tick(seconds)] + [Exchange(c, true)] + [Consume(c)]
  }

  /** A started authorization whose callback arrives at once is in its exchange, its row unconsumed. */
  lemma OpenedIsExchanging(s: System, starter: nat, c: nat, id: Id)
    requires Initial(s) && starter in s.callers && c in s.callers
    requires s.callers[starter].Starting? && s.callers[c] == Reading(s.callers[starter].state)
    ensures var t := Run(s, Opened(starter, c, id));
            var row := Session(s.callers[starter].state, s.callers[starter].accountId, s.now + LIFETIME, None);
            && t.now == s.now && t.wins == [] && t.sessions == map[id := row]
            && c in t.callers && t.callers[c] == Exchanging(id, row, s.now)
  {
    var first, second, third, last := PurgeExpired(starter), Create(starter, id), Read(c, Some(id)), Check(c);
    RunAppend(s, [first] + [second] + [third], [last]);
    ThreeSteps(s, first, second, third);
    OneStep(Next(Next(Next(s, first), second), third), last);
  }

  /**
   The check is not repeated. An unconsumed row whose exchange takes this long is always consumed,
   and before its expiry exactly when the exchange ends before it.
   */
  lemma ConsumedInTimeExactly(s: System, c: nat, seconds: nat)
    requires c in s.callers && s.callers[c].Exchanging? && CanConsume(s.sessions, s.callers[c].id)
    ensures var Exchanging(id, row, checkedAt) := s.callers[c];
            var t := Run(s, Exchanged(c, seconds));
            && t.wins == s.wins + [Win(id, c, row, checkedAt, t.now)]
            && c in t.callers && t.callers[c] == Writing(id, row, checkedAt)
            && (t.wins[|s.wins|].at < row.expiresAt <==> s.now + seconds < row.expiresAt)
  {
    ThreeSteps(s, Tick(seconds), Exchange(c, true), Consume(c));
  }

  /**
   So sessions are consumed after their expiry: an authorization that is started, called back at once
   and exchanged for this long is consumed late exactly when the exchange outlasts its lifetime.
   */
  lemma ConsumedAfterExpiry(s: System, starter: nat, c: nat, id: Id, seconds: nat)
    requires Initial(s) && starter in s.callers && c in s.callers
    requires s.callers[starter].Starting? && s.callers[c] == Reading(s.callers[starter].state)
    ensures var t := Run(s, Opened(starter, c, id) + Exchanged(c, seconds));
            && |t.wins| == 1 && t.wins[0].id == id && t.wins[0].caller == c
            && (t.wins[0].at >= t.wins[0].row.expiresAt <==> seconds >= 600)
  {
    var ready := Run(s, Opened(starter, c, id));
    OpenedIsExchanging(s, starter, c, id);
    RunAppend(s, Opened(starter, c, id), Exchanged(c, seconds));
    ConsumedInTimeExactly(ready, c, seconds);
  }
}
