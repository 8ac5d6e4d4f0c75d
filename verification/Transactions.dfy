/**
 * Nested transactions over one SQLite connection: a depth counter picks BEGIN or a savepoint named after the
 * depth, and the same counter, taken down again, picks how to end it.
 */
module Transactions {
  import opened Wrappers

  type Contents = map<nat, nat>

  /** A program that reads and writes the database, opens transactions, throws and catches. */
  datatype Prog =
    | Skip
    | Write(key: nat, value: nat)
    | IfPresent(key: nat, thn: Prog, els: Prog)
    | Then(first: Prog, second: Prog)
    | Throw
    | TryCatch(body: Prog, handler: Prog)
    | Transaction(body: Prog)

  // ---------------------------------------------------------------------------------------------
  // What nesting is meant to do
  // ---------------------------------------------------------------------------------------------

  datatype Outcome = Outcome(contents: Contents, threw: bool)

  /** All-or-nothing nesting: a transaction contributes its body's whole effect, or nothing. */
  function Meaning(p: Prog, c: Contents): Outcome {
    match p
    case Skip => Outcome(c, false)
    case Write(k, v) => Outcome(c[k := v], false)
    case IfPresent(k, thn, els) => if k in c then Meaning(thn, c) else Meaning(els, c)
    case Then(a, b) =>
      var r := Meaning(a, c);
      if r.threw then r else Meaning(b, r.contents)
    case Throw => Outcome(c, true)
    case TryCatch(body, handler) =>
      var r := Meaning(body, c);
      if r.threw then Meaning(handler, r.contents) else r
    case Transaction(body) =>
      var r := Meaning(body, c);
      if r.threw then Outcome(c, true) else r
  }

  // ---------------------------------------------------------------------------------------------
  // The connection and its commands
  // ---------------------------------------------------------------------------------------------

  datatype Save = Save(name: int, contents: Contents)

  /** The connection's durable and visible contents, its savepoint stack, and the wrapper's counter. */
  datatype Machine = Machine(disk: Contents, current: Contents, inTx: bool, saves: seq<Save>, depth: int)

  /** Whether a COMMIT of these contents goes through; SQLite may refuse one, leaving its transaction open. */
  type CommitRule = Contents -> bool

  /** Position of the most recent savepoint of that name. */
  function FindSave(saves: seq<Save>, name: int): Option<nat>
    decreases |saves|
  {
    if saves == [] then None
    else if saves[|saves| - 1].name == name then Some(|saves| - 1)
    else FindSave(saves[..|saves| - 1], name)
  }

  lemma {:induction false} FoundSave(saves: seq<Save>, name: int)
    ensures FindSave(saves, name).Some? ==> FindSave(saves, name).value < |saves| && saves[FindSave(saves, name).value].name == name
    decreases |saves|
  {
    if saves != [] {
      FoundSave(saves[..|saves| - 1], name);
    }
  }

  datatype Command = Begin | Commit | Rollback | Savepoint(name: int) | Release(name: int) | RollbackTo(name: int)

  /** One command: the machine after it, or nothing when SQLite raises an error and changes nothing. */
  function Exec(m: Machine, cmd: Command, commits: CommitRule): Option<Machine> {
    match cmd
    case Begin => if m.inTx then None else Some(m.(inTx := true))
    case Commit =>
      if !m.inTx || !commits(m.current) then None else Some(m.(disk := m.current, inTx := false, saves := []))
    case Rollback => if !m.inTx then None else Some(m.(current := m.disk, inTx := false, saves := []))
    // A negative number after `sp` is not an identifier: the statement does not parse.
    case Savepoint(n) => if n < 0 then None else Some(m.(saves := m.saves + [Save(n, m.current)]))
    case Release(n) =>
      FoundSave(m.saves, n);
      var i := FindSave(m.saves, n);
      if n < 0 || i.None? then None else Some(m.(saves := m.saves[..i.value]))
    case RollbackTo(n) =>
      FoundSave(m.saves, n);
      var i := FindSave(m.saves, n);
      if n < 0 || i.None? then None
      else Some(m.(current := m.saves[i.value].contents, saves := m.saves[..i.value + 1]))
  }

  function Written(m: Machine, key: nat, value: nat): Machine {
    var c := m.current[key := value];
    if m.inTx then m.(current := c) else m.(current := c, disk := c)
  }

  // ---------------------------------------------------------------------------------------------
  // The wrapper, run on a program
  // ---------------------------------------------------------------------------------------------

  /** The `catch` block: take the counter down and undo, by the counter. */
  function Abort(m: Machine, commits: CommitRule): Machine {
    var m1 := m.(depth := m.depth - 1);
    if m1.depth == 0 then
      Exec(m1, Rollback, commits).GetOr(m1)
    else
      match Exec(m1, RollbackTo(m1.depth), commits)
      case None => m1
      case Some(m2) => Exec(m2, Release(m1.depth), commits).GetOr(m2)
  }

  /** After a body that returned: take the counter down and commit; an error there lands in the `catch` block. */
  function Finish(m: Machine, commits: CommitRule): (Machine, bool) {
    var m1 := m.(depth := m.depth - 1);
    match Exec(m1, if m1.depth == 0 then Commit else Release(m1.depth), commits)
    case Some(m2) => (m2, false)
    case None => (Abort(m1, commits), true)
  }

  function Start(m: Machine, commits: CommitRule): Option<Machine> {
    match Exec(m, if m.depth == 0 then Begin else Savepoint(m.depth), commits)
    case None => None
    case Some(m1) => Some(m1.(depth := m.depth + 1))
  }

  function Run(p: Prog, m: Machine, commits: CommitRule): (Machine, bool)
    decreases p
  {
    match p
    case Skip => (m, false)
    case Write(k, v) => (Written(m, k, v), false)
    case IfPresent(k, thn, els) => if k in m.current then Run(thn, m, commits) else Run(els, m, commits)
    case Then(a, b) =>
      var r := Run(a, m, commits);
      if r.1 then r else Run(b, r.0, commits)
    case Throw => (m, true)
    case TryCatch(body, handler) =>
      var r := Run(body, m, commits);
      if r.1 then Run(handler, r.0, commits) else r
    case Transaction(body) =>
      match Start(m, commits)
      case None => (m, true)
      case Some(m1) =>
        var r := Run(body, m1, commits);
        if r.1 then (Abort(r.0, commits), true) else Finish(r.0, commits)
  }

  class Connection {
    const commits: CommitRule
    var disk: Contents
    var current: Contents
    var inTx: bool
    var saves: seq<Save>
    var depth: int

    function Value(): Machine
      reads this
    {
      Machine(disk, current, inTx, saves, depth)
    }

    constructor (contents: Contents, commits: CommitRule)
      ensures Value() == Machine(contents, contents, false, [], 0) && this.commits == commits
    {
      this.commits := commits;
      disk, current, inTx, saves, depth := contents, contents, false, [], 0;
    }

    /** Run one command; false stands for the error SQLite raises. */
    method ExecCommand(cmd: Command) returns (ok: bool)
      modifies this
      ensures Value() == Exec(old(Value()), cmd, commits).GetOr(old(Value()))
      ensures ok == Exec(old(Value()), cmd, commits).Some?
    {
      match cmd {
        case Begin =>
          if inTx { return false; }
          inTx := true;
        case Commit =>
          if !inTx || !commits(current) { return false; }
          disk, inTx, saves := current, false, [];
        case Rollback =>
          if !inTx { return false; }
          current, inTx, saves := disk, false, [];
        case Savepoint(n) =>
          if n < 0 { return false; }
          saves := saves + [Save(n, current)];
        case Release(n) =>
          FoundSave(saves, n);
          var i := FindSave(saves, n);
          if n < 0 || i.None? { return false; }
          saves := saves[..i.value];
        case RollbackTo(n) =>
          FoundSave(saves, n);
          var i := FindSave(saves, n);
          if n < 0 || i.None? { return false; }
          current, saves := saves[i.value].contents, saves[..i.value + 1];
      }
      return true;
    }

    /** The `catch` block of `transaction`; it always rethrows. */
    method AbortTransaction()
      modifies this
      ensures Value() == Abort(old(Value()), commits)
    {
      depth := depth - 1;
      if depth == 0 {
        var _ := ExecCommand(Rollback);
      } else {
        var name := depth;
        var ok := ExecCommand(RollbackTo(name));
        if ok {
          var _ := ExecCommand(Release(name));
        }
      }
    }

    /** Up to the body: open the level and count it. */
    method StartTransaction() returns (started: bool)
      modifies this
      ensures match Start(old(Value()), commits)
              case Some(m) => started && Value() == m
              case None => !started && Value() == old(Value())
    {
      if depth == 0 {
        started := ExecCommand(Begin);
      } else {
        started := ExecCommand(Savepoint(depth));
      }
      if started {
        depth := depth + 1;
      }
    }

    /** After a body that returned: the counter goes down before the command that may be refused. */
    method CommitTransaction() returns (ended: bool)
      modifies this
      ensures var m := old(Value()).(depth := old(depth) - 1);
              match Exec(m, if m.depth == 0 then Commit else Release(m.depth), commits)
              case Some(after) => ended && Value() == after
              case None => !ended && Value() == m
    {
      depth := depth - 1;
      if depth == 0 {
        ended := ExecCommand(Commit);
      } else {
        ended := ExecCommand(Release(depth));
      }
    }

    /** Run a program; a `Transaction` node is a call of `transaction` around its body. */
    method RunProgram(p: Prog) returns (threw: bool)
      modifies this
      ensures (Value(), threw) == Run(p, old(Value()), commits)
      decreases p
    {
      match p {
        case Skip =>
          threw := false;
        case Write(k, v) =>
          current := current[k := v];
          if !inTx {
            disk := current;
          }
          threw := false;
        case IfPresent(k, thn, els) =>
          if k in current {
            threw := RunProgram(thn);
          } else {
            threw := RunProgram(els);
          }
        case Then(a, b) =>
          threw := RunProgram(a);
          if !threw {
            threw := RunProgram(b);
          }
        case Throw =>
          threw := true;
        case TryCatch(body, handler) =>
          threw := RunProgram(body);
          if threw {
            threw := RunProgram(handler);
          }
        case Transaction(body) =>
          var started := StartTransaction();
          if !started {
            return true;
          }
          threw := RunProgram(body);
          if !threw {
            var ended := CommitTransaction();
            threw := !ended;
          }
          if threw {
            AbortTransaction();
          }
      }
    }
  }

  // ---------------------------------------------------------------------------------------------
  // Refinement
  // ---------------------------------------------------------------------------------------------

  /** Inside a transaction: one savepoint per enclosing level, named 1, 2, ... up to the depth. */
  predicate IsNested(m: Machine) {
    m.inTx && m.depth == |m.saves| + 1 && forall i :: 0 <= i < |m.saves| ==> m.saves[i].name == i + 1
  }

  predicate IsIdle(m: Machine) {
    !m.inTx && m.depth == 0 && m.saves == [] && m.current == m.disk
  }

  /**
   * Inside a transaction a program does what it means to the visible contents, and nothing else: the disk, the
   * savepoint stack and the counter are as they were.
   */
  lemma {:induction false} NestedRefines(p: Prog, m: Machine, commits: CommitRule)
    requires IsNested(m)
    ensures Run(p, m, commits) == (m.(current := Meaning(p, m.current).contents), Meaning(p, m.current).threw)
    decreases p
  {
    match p
    case Skip =>
    case Throw =>
    case Write(_, _) =>
    case IfPresent(k, thn, els) =>
      if k in m.current { NestedRefines(thn, m, commits); } else { NestedRefines(els, m, commits); }
    case Then(a, b) =>
      NestedRefines(a, m, commits);
      if !Run(a, m, commits).1 { NestedRefines(b, Run(a, m, commits).0, commits); }
    case TryCatch(body, handler) =>
      NestedRefines(body, m, commits);
      if Run(body, m, commits).1 { NestedRefines(handler, Run(body, m, commits).0, commits); }
    case Transaction(body) =>
      var m1 := Start(m, commits).value;
      assert m1.saves == m.saves + [Save(m.depth, m.current)];
      NestedRefines(body, m1, commits);
      SavepointEnds(m, Meaning(body, m.current).contents, commits);
  }

  /** Leaving the level just entered: a release keeps what the body did, a rollback restores what it found. */
  lemma {:induction false} SavepointEnds(m: Machine, inside: Contents, commits: CommitRule)
    requires IsNested(m)
    ensures var m2 := m.(saves := m.saves + [Save(m.depth, m.current)], current := inside, depth := m.depth + 1);
            Finish(m2, commits) == (m.(current := inside), false) && Abort(m2, commits) == m
  {
  }

  /** Every outermost transaction the program reaches is one whose COMMIT goes through. */
  predicate CommitsGoThrough(p: Prog, c: Contents, commits: CommitRule) {
    match p
    case Skip => true
    case Write(_, _) => true
    case Throw => true
    case IfPresent(k, thn, els) => if k in c then CommitsGoThrough(thn, c, commits) else CommitsGoThrough(els, c, commits)
    case Then(a, b) =>
      CommitsGoThrough(a, c, commits) && (!Meaning(a, c).threw ==> CommitsGoThrough(b, Meaning(a, c).contents, commits))
    case TryCatch(body, handler) =>
      CommitsGoThrough(body, c, commits) && (Meaning(body, c).threw ==> CommitsGoThrough(handler, Meaning(body, c).contents, commits))
    case Transaction(body) => Meaning(body, c).threw || commits(Meaning(body, c).contents)
  }

  /** From an idle connection, a program whose commits go through leaves on disk exactly what it means. */
  lemma {:induction false} IdleRefines(p: Prog, m: Machine, commits: CommitRule)
    requires IsIdle(m) && CommitsGoThrough(p, m.disk, commits)
    ensures var r := Meaning(p, m.disk);
            Run(p, m, commits) == (Machine(r.contents, r.contents, false, [], 0), r.threw)
    decreases p
  {
    match p
    case Skip =>
    case Throw =>
    case Write(_, _) =>
    case IfPresent(k, thn, els) =>
      if k in m.current { IdleRefines(thn, m, commits); } else { IdleRefines(els, m, commits); }
    case Then(a, b) =>
      IdleRefines(a, m, commits);
      if !Run(a, m, commits).1 { IdleRefines(b, Run(a, m, commits).0, commits); }
    case TryCatch(body, handler) =>
      IdleRefines(body, m, commits);
      if Run(body, m, commits).1 { IdleRefines(handler, Run(body, m, commits).0, commits); }
    case Transaction(body) =>
      NestedRefines(body, m.(inTx := true, depth := 1), commits);
  }

  /** While an outermost transaction's body runs, whatever it does, nothing has reached the disk. */
  lemma {:induction false} NothingCommitsEarly(body: Prog, m: Machine, commits: CommitRule)
    requires IsIdle(m)
    ensures Run(body, Start(m, commits).value, commits).0.disk == m.disk
  {
    NestedRefines(body, Start(m, commits).value, commits);
  }

  /**
   * Exactly when an outermost transaction leaves the connection usable: when its body threw, or its COMMIT went
   * through.  A refused COMMIT is handled by the same `catch` block, which takes the counter down a second time.
   */
  lemma {:induction false} TransactionEndsIdleIff(body: Prog, m: Machine, commits: CommitRule)
    requires IsIdle(m)
    ensures IsIdle(Run(Transaction(body), m, commits).0)
            <==> Meaning(body, m.disk).threw || commits(Meaning(body, m.disk).contents)
    ensures !IsIdle(Run(Transaction(body), m, commits).0) ==>
              var m' := Run(Transaction(body), m, commits).0;
              m'.depth == -1 && m'.inTx && m'.saves == [] && m'.disk == m.disk && Run(Transaction(body), m, commits).1
  {
    NestedRefines(body, m.(inTx := true, depth := 1), commits);
  }

  /** After a refused COMMIT nothing the process does is durable again, and every later transaction throws unrun. */
  lemma {:induction false} RefusedCommitIsFinal(p: Prog, m: Machine, commits: CommitRule)
    requires m.inTx && m.depth == -1
    ensures var m' := Run(p, m, commits).0;
            m'.inTx && m'.depth == -1 && m'.disk == m.disk
    ensures p.Transaction? ==> Run(p, m, commits) == (m, true)
    decreases p
  {
    match p
    case Skip =>
    case Throw =>
    case Write(_, _) =>
    case IfPresent(k, thn, els) =>
      RefusedCommitIsFinal(thn, m, commits);
      RefusedCommitIsFinal(els, m, commits);
    case Then(a, b) =>
      RefusedCommitIsFinal(a, m, commits);
      RefusedCommitIsFinal(b, Run(a, m, commits).0, commits);
    case TryCatch(body, handler) =>
      RefusedCommitIsFinal(body, m, commits);
      RefusedCommitIsFinal(handler, Run(body, m, commits).0, commits);
    case Transaction(_) =>
  }

  lemma {:induction false} RefusedIsStuck(p: Prog, m: Machine, commits: CommitRule)
    requires IsIdle(m) && !CommitsGoThrough(p, m.disk, commits)
    ensures Run(p, m, commits).0.inTx && Run(p, m, commits).0.depth == -1
    decreases p
  {
    match p
    case IfPresent(k, thn, els) =>
      if k in m.current { RefusedIsStuck(thn, m, commits); } else { RefusedIsStuck(els, m, commits); }
    case Then(a, b) =>
      if CommitsGoThrough(a, m.disk, commits) {
        IdleRefines(a, m, commits);
        RefusedIsStuck(b, Run(a, m, commits).0, commits);
      } else {
        RefusedIsStuck(a, m, commits);
        RefusedCommitIsFinal(b, Run(a, m, commits).0, commits);
      }
    case TryCatch(body, handler) =>
      if CommitsGoThrough(body, m.disk, commits) {
        IdleRefines(body, m, commits);
        RefusedIsStuck(handler, Run(body, m, commits).0, commits);
      } else {
        RefusedIsStuck(body, m, commits);
        RefusedCommitIsFinal(handler, Run(body, m, commits).0, commits);
      }
    case Transaction(body) => TransactionEndsIdleIff(body, m, commits);
  }

  /** Whether a whole program leaves the connection usable: exactly when every outermost COMMIT it reaches goes through. */
  lemma {:induction false} EndsIdleIff(p: Prog, m: Machine, commits: CommitRule)
    requires IsIdle(m)
    ensures IsIdle(Run(p, m, commits).0) <==> CommitsGoThrough(p, m.disk, commits)
  {
    if CommitsGoThrough(p, m.disk, commits) {
      IdleRefines(p, m, commits);
    } else {
      RefusedIsStuck(p, m, commits);
    }
  }

  /** A database that never refuses a COMMIT never gets stuck. */
  lemma {:induction false} AcceptedCommitsGoThrough(p: Prog, c: Contents, commits: CommitRule)
    requires forall x :: commits(x)
    ensures CommitsGoThrough(p, c, commits)
    decreases p
  {
    match p
    case IfPresent(_, thn, els) =>
      AcceptedCommitsGoThrough(thn, c, commits);
      AcceptedCommitsGoThrough(els, c, commits);
    case Then(a, b) =>
      AcceptedCommitsGoThrough(a, c, commits);
      AcceptedCommitsGoThrough(b, Meaning(a, c).contents, commits);
    case TryCatch(body, handler) =>
      AcceptedCommitsGoThrough(body, c, commits);
      AcceptedCommitsGoThrough(handler, Meaning(body, c).contents, commits);
    case _ =>
  }

  /** The refused case is real: an empty body and a COMMIT that is never accepted. */
  lemma {:induction false} RefusedCommitHappens()
    ensures var m := Machine(map[], map[], false, [], 0);
            !IsIdle(Run(Transaction(Skip), m, _ => false).0) && Run(Transaction(Skip), m, _ => false).0.depth == -1
  {
  }
}
