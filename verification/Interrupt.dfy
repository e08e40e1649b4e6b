/**
 `MyDB` of `languages/cxx/chain_proxy/12-mutex.cpp` and `00-proxy-interrupt.cpp`: `exec` polls one atomic flag,
 `interrupt` clears it. One caller at a time executes, which the connection's lock ensures; any number of threads
 interrupt at any time. The files differ in the number of polls.
 */
module Interrupt {
  import opened Prelude

  datatype ExecPc = Out | Entry | Poll(i: nat) | Unwinding

  datatype Event =
    | Entered       // the test-and-set at the beginning of exec found the flag clear
    | Refused       // it found the flag set: "already being executed"
    | Polled
    | Interrupted   // exec threw
    | Finished      // exec returned
    | InterruptSent

  datatype Db = Db(ongoing: bool, pc: ExecPc, log: seq<Event>)

  /** The next step of the thread inside `exec`. */
  function ExecStep(polls: nat, db: Db): Db {
    match db.pc
    case Out => db
    case Entry =>
      if db.ongoing then Db(true, Out, db.log + [Refused]) else Db(true, Poll(0), db.log + [Entered])
    case Poll(i) =>
      if i < polls
      then Db(true, if db.ongoing then Poll(i + 1) else Unwinding, db.log + [Polled])
      else Db(db.ongoing, Out, db.log + [Finished])
    case Unwinding => Db(false, Out, db.log + [Interrupted])
  }

  function InterruptStep(db: Db): Db {
    db.(ongoing := false, log := db.log + [InterruptSent])
  }

  datatype Move = Call | Exec | Send

  function Step(polls: nat, db: Db, move: Move): Db {
    match move
    case Call => if db.pc == Out then db.(pc := Entry) else db
    case Exec => ExecStep(polls, db)
    case Send => InterruptStep(db)
  }

  /** A new object after these steps of the executing and the interrupting threads. */
  function After(polls: nat, moves: seq<Move>): Db {
    if moves == [] then Db(false, Out, [])
    else Step(polls, After(polls, moves[..|moves| - 1]), moves[|moves| - 1])
  }

  /** Whatever a look finds, it leaves the flag set, until an interrupt or the exception clears it. */
  lemma LookSetsFlag(polls: nat, db: Db)
    requires db.pc == Entry || (db.pc.Poll? && db.pc.i < polls)
    ensures ExecStep(polls, db).ongoing
    ensures !ExecStep(polls, ExecStep(polls, db)).ongoing <==> ExecStep(polls, db).pc == Unwinding
  {
  }

  // ---- reading the log ----

  /** Where the current or last accepted execution began. */
  function Begin(log: seq<Event>): (k: int)
    ensures -1 <= k < |log| && (k >= 0 ==> log[k] == Entered)
    ensures forall j :: k < j < |log| ==> log[j] != Entered
  {
    if log == [] then -1
    else if log[|log| - 1] == Entered then |log| - 1
    else Begin(log[..|log| - 1])
  }

  /** The last time `exec` looked at the flag after it was let in, or that moment itself. */
  function LastLook(log: seq<Event>): (k: int)
    ensures -1 <= k < |log| && (k >= 0 ==> log[k] == Entered || log[k] == Polled)
    ensures forall j :: k < j < |log| ==> log[j] != Entered && log[j] != Polled
  {
    if log == [] then -1
    else if log[|log| - 1] == Entered || log[|log| - 1] == Polled then |log| - 1
    else LastLook(log[..|log| - 1])
  }

  ghost predicate SentBetween(log: seq<Event>, lo: int, hi: int) {
    exists k :: 0 <= k < |log| && lo < k < hi && log[k] == InterruptSent
  }

  /** The execution that ended at `f` returned normally, and nobody has interrupted since its last look. */
  ghost predicate LeftSetBy(log: seq<Event>, f: nat) {
    f < |log| && log[f] == Finished && !SentBetween(log, LastLook(log[..f]), |log|)
  }

  ghost predicate LeftSet(log: seq<Event>) {
    exists f: nat :: LeftSetBy(log, f)
  }

  ghost predicate OutcomeExplained(log: seq<Event>, outcome: Event) {
    match outcome
    case Entered => !LeftSet(log)
    case Refused => LeftSet(log)
    case Finished => Begin(log) >= 0 && !SentBetween(log, Begin(log), LastLook(log))
    case Interrupted => Begin(log) >= 0 && SentBetween(log, Begin(log), LastLook(log))
    case _ => true
  }

  ghost predicate Explained(log: seq<Event>) {
    forall j :: 0 <= j < |log| ==> OutcomeExplained(log[..j], log[j])
  }

  ghost predicate Inv(db: Db) {
    && Explained(db.log)
    && match db.pc
       case Out => db.ongoing <==> LeftSet(db.log)
       case Entry => db.ongoing <==> LeftSet(db.log)
       case Poll(_) =>
         && !LeftSet(db.log) && Begin(db.log) >= 0
         && !SentBetween(db.log, Begin(db.log), LastLook(db.log))
         && (db.ongoing <==> !SentBetween(db.log, Begin(db.log), |db.log|))
       case Unwinding =>
         && !LeftSet(db.log) && Begin(db.log) >= 0
         && SentBetween(db.log, Begin(db.log), LastLook(db.log))
  }

  lemma Extend(log: seq<Event>, e: Event)
    requires Explained(log) && OutcomeExplained(log, e)
    ensures Explained(log + [e])
    ensures Begin(log + [e]) == if e == Entered then |log| else Begin(log)
    ensures LastLook(log + [e]) == if e == Entered || e == Polled then |log| else LastLook(log)
    ensures forall lo, hi :: hi <= |log| ==> (SentBetween(log + [e], lo, hi) <==> SentBetween(log, lo, hi))
    ensures forall lo :: lo < |log| ==>
              (SentBetween(log + [e], lo, |log| + 1) <==> e == InterruptSent || SentBetween(log, lo, |log|))
    ensures LeftSet(log + [e]) <==>
              || (e == Finished && !SentBetween(log, LastLook(log), |log|))
              || (e != InterruptSent && LeftSet(log))
  {
    var log' := log + [e];
    assert log'[..|log|] == log;
    assert forall j :: 0 <= j < |log| ==> log'[..j] == log[..j];
    ExtendSent(log, e);
    ExtendLeftSet(log, e);
  }

  lemma SentBetweenExtends(log: seq<Event>, e: Event, lo: int, hi: int)
    ensures hi <= |log| ==> (SentBetween(log + [e], lo, hi) <==> SentBetween(log, lo, hi))
    ensures lo < |log| && hi == |log| + 1 ==>
              (SentBetween(log + [e], lo, hi) <==> e == InterruptSent || SentBetween(log, lo, |log|))
  {
    var log' := log + [e];
    assert log'[|log|] == e && forall k :: 0 <= k < |log| ==> log'[k] == log[k];
    if k :| 0 <= k < |log| && lo < k < hi && log[k] == InterruptSent {
      assert log'[k] == InterruptSent;
    }
    if k :| 0 <= k < |log'| && lo < k < hi && log'[k] == InterruptSent {
      assert k < |log| ==> log[k] == InterruptSent;
    }
  }

  lemma ExtendSent(log: seq<Event>, e: Event)
    ensures forall lo, hi :: hi <= |log| ==> (SentBetween(log + [e], lo, hi) <==> SentBetween(log, lo, hi))
    ensures forall lo :: lo < |log| ==>
              (SentBetween(log + [e], lo, |log| + 1) <==> e == InterruptSent || SentBetween(log, lo, |log|))
  {
    forall lo, hi | hi <= |log|
      ensures SentBetween(log + [e], lo, hi) <==> SentBetween(log, lo, hi)
    {
      SentBetweenExtends(log, e, lo, hi);
    }
    forall lo | lo < |log|
      ensures SentBetween(log + [e], lo, |log| + 1) <==> e == InterruptSent || SentBetween(log, lo, |log|)
    {
      SentBetweenExtends(log, e, lo, |log| + 1);
    }
  }

  lemma ExtendLeftSet(log: seq<Event>, e: Event)
    ensures LeftSet(log + [e]) <==>
              || (e == Finished && !SentBetween(log, LastLook(log), |log|))
              || (e != InterruptSent && LeftSet(log))
  {
    var log' := log + [e];
    ExtendSent(log, e);
    assert log'[..|log|] == log;
    assert LeftSetBy(log', |log|) <==> e == Finished && !SentBetween(log, LastLook(log), |log|);
    forall f: nat | f < |log|
      ensures LeftSetBy(log', f) <==> e != InterruptSent && LeftSetBy(log, f)
    {
      assert log'[..f] == log[..f];
    }
    if LeftSet(log') {
      var f: nat :| LeftSetBy(log', f);
      assert f == |log| || LeftSetBy(log', f);
    }
    if e != InterruptSent && LeftSet(log) {
      var f: nat :| LeftSetBy(log, f);
      assert LeftSetBy(log', f);
    }
  }

  lemma EntryKeepsInv(polls: nat, db: Db)
    requires Inv(db) && db.pc == Entry
    ensures Inv(ExecStep(polls, db))
  {
    var e := if db.ongoing then Refused else Entered;
    Extend(db.log, e);
    if e == Entered {
      assert Begin(db.log + [e]) == LastLook(db.log + [e]) == |db.log|;
      assert !SentBetween(db.log + [e], |db.log|, |db.log| + 1);
    }
  }

  lemma PollKeepsInv(polls: nat, db: Db)
    requires Inv(db) && db.pc.Poll? && db.pc.i < polls
    ensures Inv(ExecStep(polls, db))
  {
    Extend(db.log, Polled);
  }

  lemma FinishKeepsInv(polls: nat, db: Db)
    requires Inv(db) && db.pc.Poll? && db.pc.i >= polls
    ensures Inv(ExecStep(polls, db))
  {
    Extend(db.log, Finished);
    LookSplits(db.log);
  }

  /** The last look of an execution divides what was sent since its beginning. */
  lemma LookSplits(log: seq<Event>)
    requires Begin(log) >= 0
    ensures Begin(log) <= LastLook(log)
    ensures SentBetween(log, Begin(log), |log|) <==>
              SentBetween(log, Begin(log), LastLook(log)) || SentBetween(log, LastLook(log), |log|)
  {
    if SentBetween(log, Begin(log), |log|) {
      var k :| 0 <= k < |log| && Begin(log) < k && log[k] == InterruptSent;
      assert k != LastLook(log);
    }
  }

  lemma ExecKeepsInv(polls: nat, db: Db)
    requires Inv(db) && db.pc != Out
    ensures Inv(ExecStep(polls, db))
  {
    match db.pc
    case Entry => EntryKeepsInv(polls, db);
    case Poll(i) => if i < polls { PollKeepsInv(polls, db); } else { FinishKeepsInv(polls, db); }
    case Unwinding => Extend(db.log, Interrupted);
  }

  lemma SendKeepsInv(db: Db)
    requires Inv(db)
    ensures Inv(InterruptStep(db))
  {
    Extend(db.log, InterruptSent);
    match db.pc
    case Poll(_) => assert Begin(db.log) < |db.log|;
    case _ =>
  }

  lemma StepKeepsInv(polls: nat, db: Db, move: Move)
    requires Inv(db)
    ensures Inv(Step(polls, db, move))
  {
    match move
    case Call =>
    case Exec => if db.pc != Out { ExecKeepsInv(polls, db); }
    case Send => SendKeepsInv(db);
  }

  lemma {:induction false} AlwaysInv(polls: nat, moves: seq<Move>)
    ensures Inv(After(polls, moves))
  {
    if moves != [] {
      AlwaysInv(polls, moves[..|moves| - 1]);
      StepKeepsInv(polls, After(polls, moves[..|moves| - 1]), moves[|moves| - 1]);
    }
  }

  /**
   An execution ends interrupted exactly when at least one interrupt came between its first look at the flag and
   its last one, for every interleaving and any number of interrupts.
   */
  lemma InterruptedExactly(polls: nat, moves: seq<Move>, j: nat)
    requires var log := After(polls, moves).log; j < |log| && (log[j] == Finished || log[j] == Interrupted)
    ensures var log := After(polls, moves).log;
            var begin, look := Begin(log[..j]), LastLook(log[..j]);
            && 0 <= begin <= look < j
            && (log[j] == Interrupted <==> exists k :: begin < k < look && log[k] == InterruptSent)
  {
    AlwaysInv(polls, moves);
    var log := After(polls, moves).log;
    assert OutcomeExplained(log[..j], log[j]);
    assert forall k :: 0 <= k < j ==> log[..j][k] == log[k];
  }

  /**
   A call is refused exactly when an earlier execution of the same object returned normally and nobody has
   interrupted since that one's last look at the flag: a normal return leaves the flag set.
   */
  lemma RefusedExactly(polls: nat, moves: seq<Move>, j: nat)
    requires var log := After(polls, moves).log; j < |log| && (log[j] == Entered || log[j] == Refused)
    ensures var log := After(polls, moves).log;
            log[j] == Refused <==>
              exists f :: 0 <= f < j && log[f] == Finished &&
                          forall k :: LastLook(log[..f]) < k < j ==> log[k] != InterruptSent
  {
    AlwaysInv(polls, moves);
    var log := After(polls, moves).log;
    assert OutcomeExplained(log[..j], log[j]);
    LeftSetMeans(log, j);
  }

  lemma LeftSetMeans(log: seq<Event>, j: nat)
    requires j <= |log|
    ensures LeftSet(log[..j]) <==>
              exists f :: 0 <= f < j && log[f] == Finished &&
                          forall k :: LastLook(log[..f]) < k < j ==> log[k] != InterruptSent
  {
    forall f | 0 <= f < j
      ensures LeftSetBy(log[..j], f) <==>
                log[f] == Finished && forall k :: LastLook(log[..f]) < k < j ==> log[k] != InterruptSent
    {
      LeftSetByMeans(log, j, f);
    }
  }

  lemma LeftSetByMeans(log: seq<Event>, j: nat, f: nat)
    requires f < j <= |log|
    ensures LeftSetBy(log[..j], f) <==>
              log[f] == Finished && forall k :: LastLook(log[..f]) < k < j ==> log[k] != InterruptSent
  {
    var lo := LastLook(log[..f]);
    assert log[..j][..f] == log[..f];
    if k :| lo < k < j && log[k] == InterruptSent {
      assert log[..j][k] == InterruptSent;
    }
  }

  // ---- how soon an interrupt is noticed ----

  /** What happens apart from further interrupts. */
  function Heard(log: seq<Event>): seq<Event> {
    if log == [] then [] else
      var n := |log| - 1;
      Heard(log[..n]) + if log[n] == InterruptSent then [] else [log[n]]
  }

  function ExecSteps(moves: seq<Move>): nat {
    if moves == [] then 0 else ExecSteps(moves[..|moves| - 1]) + if moves[|moves| - 1] == Exec then 1 else 0
  }

  /** What has been heard since an interrupt came before a poll, after this many steps of the executing thread. */
  predicate Answers(polls: nat, db: Db, heard: seq<Event>, steps: nat) {
    match steps
    case 0 => heard == [] && db.pc.Poll? && db.pc.i < polls && !db.ongoing
    case 1 => heard == [Polled] && db.pc == Unwinding
    case _ => [Polled, Interrupted] <= heard
  }

  lemma StepAnswers(polls: nat, db: Db, heard: seq<Event>, steps: nat, move: Move)
    requires Answers(polls, db, heard, steps)
    ensures var db' := Step(polls, db, move);
            && db.log <= db'.log
            && Answers(polls, db', heard + Heard(db'.log[|db.log|..]), steps + if move == Exec then 1 else 0)
  {
    match StepEvent(polls, db, move)
    case None => HeardNone(db.log);
    case Some(e) =>
      HeardOne(db.log, e);
      EventAnswers(polls, db, heard, steps, move, e);
  }

  /** What the step adds to the log. */
  function StepEvent(polls: nat, db: Db, move: Move): (e: Option<Event>)
    ensures Step(polls, db, move).log == db.log + if e.Some? then [e.value] else []
  {
    match move
    case Call => None
    case Send => Some(InterruptSent)
    case Exec =>
      match db.pc
      case Out => None
      case Entry => Some(if db.ongoing then Refused else Entered)
      case Poll(i) => Some(if i < polls then Polled else Finished)
      case Unwinding => Some(Interrupted)
  }

  lemma EventAnswers(polls: nat, db: Db, heard: seq<Event>, steps: nat, move: Move, e: Event)
    requires Answers(polls, db, heard, steps) && StepEvent(polls, db, move) == Some(e)
    ensures Answers(polls, Step(polls, db, move), heard + (if e == InterruptSent then [] else [e]),
                    steps + if move == Exec then 1 else 0)
  {
  }

  lemma HeardNone(log: seq<Event>)
    ensures Heard(log[|log|..]) == []
  {
  }

  lemma HeardOne(log: seq<Event>, e: Event)
    ensures Heard((log + [e])[|log|..]) == if e == InterruptSent then [] else [e]
  {
    assert (log + [e])[|log|..] == [e] && [e][..0] == [];
  }

  lemma {:induction false} HeardJoins(a: seq<Event>, b: seq<Event>)
    ensures Heard(a + b) == Heard(a) + Heard(b)
  {
    if b == [] {
      assert a + b == a;
    } else {
      var n := |b| - 1;
      assert (a + b)[..|a| + n] == a + b[..n];
      HeardJoins(a, b[..n]);
    }
  }

  lemma AfterOne(polls: nat, moves: seq<Move>, move: Move)
    ensures After(polls, moves + [move]) == Step(polls, After(polls, moves), move)
  {
    assert (moves + [move])[..|moves|] == moves;
  }

  /** How an object has answered since its log was `log`. */
  ghost predicate Answered(polls: nat, log: seq<Event>, db: Db, steps: nat) {
    log <= db.log && Answers(polls, db, Heard(db.log[|log|..]), steps)
  }

  lemma MoveAnswered(polls: nat, log: seq<Event>, db: Db, steps: nat, move: Move)
    requires Answered(polls, log, db, steps)
    ensures Answered(polls, log, Step(polls, db, move), steps + if move == Exec then 1 else 0)
  {
    var db' := Step(polls, db, move);
    StepAnswers(polls, db, Heard(db.log[|log|..]), steps, move);
    assert db'.log[|log|..] == db.log[|log|..] + db'.log[|db.log|..];
    HeardJoins(db.log[|log|..], db'.log[|db.log|..]);
  }

  lemma {:induction false} MovesAnswer(polls: nat, moves: seq<Move>, later: seq<Move>)
    requires Answers(polls, After(polls, moves), [], 0)
    ensures Answered(polls, After(polls, moves).log, After(polls, moves + later), ExecSteps(later))
  {
    if later == [] {
      assert moves + later == moves;
      HeardNone(After(polls, moves).log);
    } else {
      var before, move := later[..|later| - 1], later[|later| - 1];
      MovesAnswer(polls, moves, before);
      assert moves + later == moves + before + [move];
      AfterOne(polls, moves + before, move);
      MoveAnswered(polls, After(polls, moves).log, After(polls, moves + before), ExecSteps(before), move);
    }
  }

  /**
   An interrupt that comes while an execution has a poll left is answered by the next two steps of the executing
   thread: a poll and the exception, in every continuation, whatever else is sent. Nothing else comes before.
   */
  lemma InterruptIsPrompt(polls: nat, moves: seq<Move>, later: seq<Move>)
    requires After(polls, moves).pc.Poll? && After(polls, moves).pc.i < polls
    ensures var log, log' := After(polls, moves + [Send]).log, After(polls, moves + [Send] + later).log;
            && log == After(polls, moves).log + [InterruptSent] && log <= log'
            && (if ExecSteps(later) < 2 then Heard(log'[|log|..]) == [Polled][..ExecSteps(later)]
                else [Polled, Interrupted] <= Heard(log'[|log|..]))
  {
    AfterOne(polls, moves, Send);
    MovesAnswer(polls, moves + [Send], later);
  }

  // ---- a second execution ----

  /** A call and its steps up to the `n`-th poll. */
  function UpToPoll(n: nat): seq<Move> {
    if n == 0 then [Call, Exec] else UpToPoll(n - 1) + [Exec]
  }

  lemma {:induction false} PollsGoOn(polls: nat, n: nat)
    requires n <= polls
    ensures After(polls, UpToPoll(n)).pc == Poll(n) && After(polls, UpToPoll(n)).ongoing
  {
    if n == 0 {
      AfterOne(polls, [], Call);
      AfterOne(polls, [Call], Exec);
      assert [] + [Call] == [Call] && [Call] + [Exec] == [Call, Exec];
    } else {
      PollsGoOn(polls, n - 1);
      AfterOne(polls, UpToPoll(n - 1), Exec);
    }
  }

  /** An execution that nobody interrupts returns normally, and the next one of the same object is refused. */
  lemma SecondExecIsRefused(polls: nat)
    ensures var log := After(polls, UpToPoll(polls) + [Exec] + [Call] + [Exec]).log;
            |log| >= 2 && log[|log| - 2] == Finished && log[|log| - 1] == Refused
  {
    PollsGoOn(polls, polls);
    AfterOne(polls, UpToPoll(polls), Exec);
    AfterOne(polls, UpToPoll(polls) + [Exec], Call);
    AfterOne(polls, UpToPoll(polls) + [Exec] + [Call], Exec);
  }
}
