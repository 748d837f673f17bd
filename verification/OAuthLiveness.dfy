/** What the callers of the login service can rely on: live sessions stay, and those who are in time win. */
module OAuthLiveness {
  import opened Options
  import opened OAuthTable
  import opened OAuthProtocol

  // ----- what a purge takes -----

  /** A start purges exactly the sessions whose expiry is before now, and leaves every other one alone. */
  lemma PurgeTakesTheExpired(s: System, c: nat, id: Id)
    requires c in s.callers && s.callers[c].Starting?
    ensures var t := Next(s, PurgeExpired(c));
            && (id in t.sessions <==> id in s.sessions && s.sessions[id].expiresAt >= s.now)
            && (id in t.sessions ==> t.sessions[id] == s.sessions[id])
  {
  }

  // ----- how long a session stays -----

  /** The steps that consume or delete a session; a purge only once the session has expired. */
  predicate Ends(s: System, step: Step, id: Id)
    requires id in s.sessions
  {
    match step
    case Tick(_) => false
    case RemoveSession(other) => other == id
    case RemoveAccount(_) => false
    case PurgeExpired(c) => c in s.callers && s.callers[c].Starting? && s.sessions[id].expiresAt < s.now
    case Discard(c) => c in s.callers && s.callers[c] == Discarding(id)
    case Clean(c) => c in s.callers && s.callers[c] == Cleaning(id)
    case Consume(c) =>
      c in s.callers && s.callers[c].Consuming? && s.callers[c].id == id && s.sessions[id].consumedAt.None?
    case _ => false
  }

  /** The same state, expiry and mark; the account it is for can have been deleted. */
  predicate Stays(s: System, t: System, id: Id)
    requires id in s.sessions
  {
    && id in t.sessions && t.sessions[id].state == s.sessions[id].state
    && t.sessions[id].expiresAt == s.sessions[id].expiresAt && t.sessions[id].consumedAt == s.sessions[id].consumedAt
    && (t.sessions[id].accountId == s.sessions[id].accountId || t.sessions[id].accountId == None)
  }

  /** One step leaves a session as it is exactly when it does not end it. */
  lemma StaysExactly(s: System, step: Step, id: Id)
    requires id in s.sessions && s.sessions.Keys <= s.usedIds
    ensures Stays(s, Next(s, step), id) <==> !Ends(s, step, id)
  {
  }

  /** Deleting an account takes it from the sessions that were for it, and from no other. */
  lemma AccountTakenFromSessions(s: System, step: Step, id: Id)
    requires id in s.sessions && s.sessions.Keys <= s.usedIds && !Ends(s, step, id)
    ensures var was, left := s.sessions[id].accountId, Next(s, step).sessions;
            id in left && left[id].accountId == if step.RemoveAccount? && was == Some(step.account) then None else was
  {
  }

  ghost predicate NeverEnded(s: System, steps: seq<Step>, id: Id) {
    forall i | 0 <= i < |steps| ::
      id in Run(s, steps[..i]).sessions ==> !Ends(Run(s, steps[..i]), steps[i], id)
  }

  lemma NeverEndedSnoc(s: System, front: seq<Step>, last: Step, id: Id)
    requires NeverEnded(s, front + [last], id)
    ensures NeverEnded(s, front, id)
    ensures id in Run(s, front).sessions ==> !Ends(Run(s, front), last, id)
  {
    var steps := front + [last];
    assert steps[..|front|] == front && steps[|front|] == last;
    forall i | 0 <= i < |front|
      ensures id in Run(s, front[..i]).sessions ==> !Ends(Run(s, front[..i]), front[i], id)
    {
      assert steps[..i] == front[..i] && steps[i] == front[i];
    }
  }

  lemma RunSnoc(s: System, front: seq<Step>, last: Step)
    ensures Run(s, front + [last]) == Next(Run(s, front), last)
  {
    assert (front + [last])[..|front|] == front;
  }

  /** Over any run a session stays as it is until some step ends it. */
  lemma {:induction false} SessionStays(s: System, steps: seq<Step>, id: Id)
    requires Inv(s) && id in s.sessions && NeverEnded(s, steps, id)
    ensures Stays(s, Run(s, steps), id)
  {
    if steps != [] {
      var front, last := steps[..|steps| - 1], steps[|steps| - 1];
      assert steps == front + [last];
      NeverEndedSnoc(s, front, last, id);
      SessionStays(s, front, id);
      RunKeepsInv(s, front);
      StaysExactly(Run(s, front), last, id);
      RunSnoc(s, front, last);
    }
  }

  // ----- starts of other sessions -----

  /** The clock, and the two steps of a start by someone else. */
  predicate OthersStart(step: Step, c: nat) {
    step.Tick? || ((step.PurgeExpired? || step.Create?) && step.caller != c)
  }

  ghost predicate OnlyStarts(steps: seq<Step>, c: nat) {
    forall i | 0 <= i < |steps| :: OthersStart(steps[i], c)
  }

  lemma {:induction false} ClockRuns(s: System, steps: seq<Step>)
    ensures s.now <= Run(s, steps).now
  {
    if steps != [] { ClockRuns(s, steps[..|steps| - 1]); }
  }

  /** The caller's place and the histories, which starts of others do not touch. */
  predicate Undisturbed(s: System, t: System, c: nat) {
    && c in s.callers && c in t.callers && t.callers[c] == s.callers[c]
    && t.wins == s.wins && t.writes == s.writes
  }

  /** Starts of others, up to the expiry of a session, disturb neither it nor the caller. */
  lemma {:induction false} StartsDisturbNothing(s: System, steps: seq<Step>, c: nat, id: Id)
    requires Inv(s) && c in s.callers && id in s.sessions && OnlyStarts(steps, c)
    requires Run(s, steps).now <= s.sessions[id].expiresAt
    ensures var t := Run(s, steps); Inv(t) && Undisturbed(s, t, c) && Stays(s, t, id)
  {
    if steps != [] {
      var front, last := steps[..|steps| - 1], steps[|steps| - 1];
      assert OthersStart(last, c);
      var before := Run(s, front);
      assert before.now <= Next(before, last).now;
      StartsDisturbNothing(s, front, c, id);
      RunKeepsInv(s, steps);
      StaysExactly(before, last, id);
      StartStep(before, last, c);
    }
  }

  lemma StartStep(s: System, step: Step, c: nat)
    requires c in s.callers && OthersStart(step, c)
    ensures Undisturbed(s, Next(s, step), c)
  {
  }

  // ----- a caller in time -----

  /** The four steps of a callback up to its compare-and-set, with starts of others before each. */
  function Callback(c: nat, id: Id, o1: seq<Step>, o2: seq<Step>, o3: seq<Step>, o4: seq<Step>): seq<Step> {
    o1 + [Read(c, Some(id))] + (o2 + [Check(c)]) + (o3 + [Exchange(c, true)]) + (o4 + [Consume(c)])
  }

  lemma StepAfter(s: System, others: seq<Step>, own: Step)
    ensures Run(s, others + [own]) == Next(Run(s, others), own)
  {
    RunSnoc(s, others, own);
  }

  lemma ReadFinds(s: System, c: nat, id: Id)
    requires c in s.callers && id in s.sessions && s.callers[c] == Reading(s.sessions[id].state)
    ensures var t := Next(s, Read(c, Some(id)));
            && t == s.(callers := t.callers) && c in t.callers && t.callers[c] == Checking(id, s.sessions[id])
  {
  }

  lemma CheckPasses(s: System, c: nat, id: Id, row: Session)
    requires c in s.callers && s.callers[c] == Checking(id, row) && row.consumedAt.None? && s.now < row.expiresAt
    ensures var t := Next(s, Check(c));
            && t == s.(callers := t.callers) && c in t.callers && t.callers[c] == Exchanging(id, row, s.now)
  {
  }

  lemma ExchangeSucceeds(s: System, c: nat, id: Id, row: Session, at: Time)
    requires c in s.callers && s.callers[c] == Exchanging(id, row, at)
    ensures var t := Next(s, Exchange(c, true));
            && t == s.(callers := t.callers) && c in t.callers && t.callers[c] == Consuming(id, row, at)
  {
  }

  lemma ConsumeWins(s: System, c: nat, id: Id, row: Session, at: Time)
    requires c in s.callers && s.callers[c] == Consuming(id, row, at)
    requires id in s.sessions && s.sessions[id].consumedAt.None?
    ensures var t := Next(s, Consume(c));
            && t.wins == s.wins + [Win(id, c, row, at, s.now)]
            && c in t.callers && t.callers[c] == Writing(id, row, at)
  {
  }

  /** One step of the callback after some starts of others. */
  lemma OthersThenOwn(s: System, others: seq<Step>, own: Step, c: nat, id: Id) returns (mid: System)
    requires Inv(s) && c in s.callers && id in s.sessions && OnlyStarts(others, c)
    requires Run(s, others + [own]).now <= s.sessions[id].expiresAt
    ensures mid == Run(s, others) && Run(s, others + [own]) == Next(mid, own)
    ensures Inv(mid) && Undisturbed(s, mid, c) && Stays(s, mid, id)
    ensures Inv(Next(mid, own)) && s.now <= mid.now <= Next(mid, own).now
  {
    mid := Run(s, others);
    StepAfter(s, others, own);
    assert mid.now <= Next(mid, own).now;
    StartsDisturbNothing(s, others, c, id);
    NextKeepsInv(mid, own);
    ClockRuns(s, others);
  }

  /**
   A caller that calls back with the state of a live session wins it, however many other sessions are
   started between its steps, as long as the check comes before the expiry and no start after it.
   */
  lemma CallbackWins(s: System, c: nat, id: Id, o1: seq<Step>, o2: seq<Step>, o3: seq<Step>, o4: seq<Step>)
    requires Inv(s) && c in s.callers && id in s.sessions && s.sessions[id].consumedAt.None?
    requires s.callers[c] == Reading(s.sessions[id].state)
    requires OnlyStarts(o1, c) && OnlyStarts(o2, c) && OnlyStarts(o3, c) && OnlyStarts(o4, c)
    requires Run(s, o1 + [Read(c, Some(id))] + (o2 + [Check(c)])).now < s.sessions[id].expiresAt
    requires Run(s, Callback(c, id, o1, o2, o3, o4)).now <= s.sessions[id].expiresAt
    ensures var t := Run(s, Callback(c, id, o1, o2, o3, o4));
            && |t.wins| == |s.wins| + 1 && t.wins[|s.wins|].id == id && t.wins[|s.wins|].caller == c
            && c in t.callers && t.callers[c].Writing?
  {
    var a, b, d, e := o1 + [Read(c, Some(id))], o2 + [Check(c)], o3 + [Exchange(c, true)], o4 + [Consume(c)];
    RunAppend(s, a + b + d, e);
    RunAppend(s, a + b, d);
    RunAppend(s, a, b);
    var s1 := Run(s, a);
    var s2 := Run(s1, b);
    var s3 := Run(s2, d);
    ClockRuns(s3, e);
    ClockRuns(s2, d);
    ClockRuns(s1, b);
    var m1 := OthersThenOwn(s, o1, Read(c, Some(id)), c, id);
    ReadFinds(m1, c, id);
    var row := m1.sessions[id];
    var m2 := OthersThenOwn(s1, o2, Check(c), c, id);
    CheckPasses(m2, c, id, row);
    var m3 := OthersThenOwn(s2, o3, Exchange(c, true), c, id);
    ExchangeSucceeds(m3, c, id, row, m2.now);
    var m4 := OthersThenOwn(s3, o4, Consume(c), c, id);
    ConsumeWins(m4, c, id, row, m2.now);
  }

  /**
   From the start: an authorization called back, checked and consumed within its ten minutes wins,
   whatever other authorizations are started meanwhile.
   */
  lemma InTimeWins(s: System, starter: nat, c: nat, id: Id, o1: seq<Step>, o2: seq<Step>, o3: seq<Step>, o4: seq<Step>)
    requires Initial(s) && starter in s.callers && c in s.callers
    requires s.callers[starter].Starting? && s.callers[c] == Reading(s.callers[starter].state)
    requires OnlyStarts(o1, c) && OnlyStarts(o2, c) && OnlyStarts(o3, c) && OnlyStarts(o4, c)
    requires Run(s, [PurgeExpired(starter)] + [Create(starter, id)] + Callback(c, id, o1, o2, o3, o4)).now < s.now + 600
    ensures var t := Run(s, [PurgeExpired(starter)] + [Create(starter, id)] + Callback(c, id, o1, o2, o3, o4));
            && |t.wins| == 1 && t.wins[0].id == id && t.wins[0].caller == c
            && c in t.callers && t.callers[c].Writing?
  {
    var begin, rest := [PurgeExpired(starter)] + [Create(starter, id)], Callback(c, id, o1, o2, o3, o4);
    var live := Run(s, begin);
    RunAppend(s, begin, rest);
    InitialInv(s);
    RunKeepsInv(s, begin);
    StartedIsLive(s, starter, c, id);
    var a, b, d, e := o1 + [Read(c, Some(id))], o2 + [Check(c)], o3 + [Exchange(c, true)], o4 + [Consume(c)];
    RunAppend(live, a + b + d, e);
    RunAppend(live, a + b, d);
    ClockRuns(Run(live, a + b + d), e);
    ClockRuns(Run(live, a + b), d);
    CallbackWins(live, c, id, o1, o2, o3, o4);
  }

  lemma StartedIsLive(s: System, starter: nat, c: nat, id: Id)
    requires Initial(s) && starter in s.callers && c in s.callers
    requires s.callers[starter].Starting? && s.callers[c] == Reading(s.callers[starter].state)
    ensures var t := Run(s, [PurgeExpired(starter)] + [Create(starter, id)]);
            && t.now == s.now && t.wins == [] && id in t.sessions && c in t.callers && t.callers[c] == s.callers[c]
            && t.sessions[id] == Session(s.callers[starter].state, s.callers[starter].accountId, s.now + 600, None)
  {
    RunAppend(s, [PurgeExpired(starter)], [Create(starter, id)]);
    OneStep(s, PurgeExpired(starter));
    OneStep(Next(s, PurgeExpired(starter)), Create(starter, id));
  }

  // ----- the account that is written -----

  /** The account a win was for; a win for no account makes a new one. */
  predicate Home(row: Session, account: Id) {
    row.accountId.None? || row.accountId == Some(account)
  }

  predicate WonWith(s: System, id: Id, c: nat, row: Session) {
    exists k | 0 <= k < |s.wins| :: s.wins[k].id == id && s.wins[k].caller == c && s.wins[k].row == row
  }

  predicate WrittenHome(s: System, w: Write) {
    exists k | 0 <= k < |s.wins| ::
      s.wins[k].id == w.id && s.wins[k].caller == w.caller && Home(s.wins[k].row, w.account)
  }

  /** Every write went to the account its session was for, and those about to write hold the row they won with. */
  predicate HomeInv(s: System) {
    && (forall i | 0 <= i < |s.writes| :: WrittenHome(s, s.writes[i]))
    && (forall c | c in s.callers && s.callers[c].Writing? :: WonWith(s, s.callers[c].id, c, s.callers[c].row))
  }

  lemma HomeStays(s: System, t: System, w: Write)
    requires s.wins <= t.wins && WrittenHome(s, w)
    ensures WrittenHome(t, w)
  {
    var k :| 0 <= k < |s.wins| && s.wins[k].id == w.id && s.wins[k].caller == w.caller
             && Home(s.wins[k].row, w.account);
    assert t.wins[k] == s.wins[k];
  }

  lemma WonWithStays(s: System, t: System, id: Id, c: nat, row: Session)
    requires s.wins <= t.wins && WonWith(s, id, c, row)
    ensures WonWith(t, id, c, row)
  {
    var k :| 0 <= k < |s.wins| && s.wins[k].id == id && s.wins[k].caller == c && s.wins[k].row == row;
    assert t.wins[k] == s.wins[k];
  }

  /** What one step writes, and who is about to write after it. */
  lemma StepWrites(s: System, step: Step)
    ensures var t := Next(s, step);
            && s.wins <= t.wins && s.writes <= t.writes && |t.writes| <= |s.writes| + 1
            && (|t.writes| > |s.writes| ==>
                  var w := t.writes[|s.writes|];
                  && w.caller in s.callers && s.callers[w.caller].Writing?
                  && w.id == s.callers[w.caller].id && Home(s.callers[w.caller].row, w.account))
            && forall c | c in t.callers && t.callers[c].Writing? ::
                 c in s.callers
                 && (s.callers[c] == t.callers[c]
                     || (|t.wins| > |s.wins| && t.wins[|s.wins|].id == t.callers[c].id
                         && t.wins[|s.wins|].caller == c && t.wins[|s.wins|].row == t.callers[c].row))
  {
  }

  lemma NextKeepsHome(s: System, step: Step)
    requires HomeInv(s)
    ensures HomeInv(Next(s, step))
  {
    var t := Next(s, step);
    StepWrites(s, step);
    forall i | 0 <= i < |t.writes| ensures WrittenHome(t, t.writes[i]) {
      if i < |s.writes| {
        HomeStays(s, t, s.writes[i]);
      } else {
        var w := t.writes[i];
        WonWithStays(s, t, w.id, w.caller, s.callers[w.caller].row);
        var k :| 0 <= k < |t.wins| && t.wins[k].id == w.id && t.wins[k].caller == w.caller
                 && t.wins[k].row == s.callers[w.caller].row;
      }
    }
    forall c | c in t.callers && t.callers[c].Writing? ensures WonWith(t, t.callers[c].id, c, t.callers[c].row) {
      if s.callers[c] == t.callers[c] {
        WonWithStays(s, t, t.callers[c].id, c, t.callers[c].row);
      }
    }
  }

  /** Over every run, an account written from a session that was for an account is that account. */
  lemma {:induction false} WritesGoHome(s: System, steps: seq<Step>)
    requires Initial(s)
    ensures HomeInv(Run(s, steps))
  {
    if steps != [] {
      WritesGoHome(s, steps[..|steps| - 1]);
      NextKeepsHome(Run(s, steps[..|steps| - 1]), steps[|steps| - 1]);
    }
  }

  // ----- a win runs to its end -----

  /**
   A winner updates the account its session was for if that is still there, and fails without a write
   if it is gone; without one it makes an account under a free id. Once it wrote, its session goes.
   */
  lemma WinnerFinishes(s: System, c: nat, newId: Id)
    requires c in s.callers && s.callers[c].Writing?
    ensures c in Run(s, [WriteAccount(c, newId)] + [Clean(c)]).callers
    ensures var Writing(id, row, _) := s.callers[c];
            var t := Run(s, [WriteAccount(c, newId)] + [Clean(c)]);
            match row.accountId
            case Some(account) =>
              && t.accounts == s.accounts
              && (if account in s.accounts
                  then t.callers[c] == Completed(id) && t.writes == s.writes + [Write(id, c, account)]
                       && t.sessions == s.sessions - {id}
                  else t.callers[c] == Failed && t.writes == s.writes && t.sessions == s.sessions)
            case None =>
              newId !in s.accounts ==>
                && t.callers[c] == Completed(id) && t.writes == s.writes + [Write(id, c, newId)]
                && t.accounts == s.accounts + {newId} && t.sessions == s.sessions - {id}
  {
    var write := WriteAccount(c, newId);
    RunAppend(s, [write], [Clean(c)]);
    OneStep(s, write);
    OneStep(Next(s, write), Clean(c));
  }
}
