/** The receptionist's table-allocation policy and the state machine it runs
    once per request, stated on values. Blocking is abstracted away: each
    operation is one critical section, and a semaphore `up` is a counter that
    goes up by one. */
module Allocation {
  import opened Logging

  /** The receptionist's private record of a group: TOARRIVE, WAIT, ATTABLE, DONE. */
  datatype Phase = ToArrive | Wait | AtTable | Done

  /** A request type; the source's switch ignores any code other than the two it knows. */
  datatype ReqType = TableReq | BillReq | OtherReq(code: int)

  datatype Request = Request(reqType: ReqType, reqGroup: int)

  /** Fixed parameters of a run: the number of groups, NUMTABLES, MAXGROUPS,
      and the receptionist status codes WAIT_REQUEST, ASSIGNTABLE and RECVPAY. */
  datatype Config = Config(
    nGroups: nat,
    numTables: nat,
    maxGroups: nat,
    waitRequest: int,
    assignTable: int,
    recvPay: int)

  /** Everything the receptionist reads or writes: the shared full state, its
      private ledger, the counts of `up`s on each group's table-ready semaphore
      and each table's vacated semaphore, and the full states it has saved to
      the log, in order (the receptionist keeps one line per saved state, so by
      `Logging.LinesOfRender` the text written is `Render(saved)`). */
  datatype State = State(
    chefStat: int,
    waiterStat: int,
    receptionistStat: int,
    groupStat: seq<int>,
    assignedTable: seq<int>,
    groupsWaiting: int,
    groupRecord: seq<Phase>,
    waitForTable: seq<nat>,
    tableDone: seq<nat>,
    saved: seq<FullStat>)

  /** The arrays have their declared sizes: MAXGROUPS per group, NUMTABLES per table. */
  predicate Shaped(c: Config, s: State)
  {
    && c.nGroups <= c.maxGroups
    && |s.groupStat| == c.maxGroups
    && |s.assignedTable| == c.maxGroups
    && |s.groupRecord| == c.maxGroups
    && |s.waitForTable| == c.maxGroups
    && |s.tableDone| == c.numTables
  }

  /** The fields `saveState` prints. */
  function Snapshot(c: Config, s: State): (f: FullStat)
    requires Shaped(c, s)
    ensures WellFormed(f)
  {
    FullStat(s.chefStat, s.waiterStat, s.receptionistStat, s.groupStat, c.nGroups, s.groupsWaiting, s.assignedTable)
  }

  /** `saveState`: one more state saved, that is, one more line at the end of the log. */
  function AppendSnapshot(c: Config, s: State): State
    requires Shaped(c, s)
  {
    s.(saved := s.saved + [Snapshot(c, s)])
  }

  // ---------------------------------------------------------------------------
  // The two searches

  /** Some group among the first `n` holds table `t`. */
  predicate Held(at: seq<int>, n: nat, t: int)
    requires n <= |at|
  {
    exists g :: 0 <= g < n && at[g] == t
  }

  /** The lowest table from `t` on that none of the first `n` groups holds,
      or -1 when all of them are held. */
  function LowestFreeFrom(at: seq<int>, n: nat, numTables: nat, t: nat): (r: int)
    requires n <= |at|
    decreases numTables - t
    ensures r == -1 ==> forall u :: t <= u < numTables ==> Held(at, n, u)
    ensures r != -1 ==> t <= r < numTables && !Held(at, n, r)
    ensures r != -1 ==> forall u :: t <= u < r ==> Held(at, n, u)
  {
    if t >= numTables then -1
    else if !Held(at, n, t) then t
    else LowestFreeFrom(at, n, numTables, t + 1)
  }

  /** `decideTableOrWait`'s answer. */
  function LowestFreeTable(at: seq<int>, n: nat, numTables: nat): int
    requires n <= |at|
  {
    LowestFreeFrom(at, n, numTables, 0)
  }

  /** The lowest group from `k` on, below `n`, recorded as waiting, or -1. */
  function LowestWaitingFrom(rec: seq<Phase>, n: nat, k: nat): (r: int)
    requires n <= |rec|
    decreases n - k
    ensures r == -1 ==> forall g :: k <= g < n ==> rec[g] != Wait
    ensures r != -1 ==> k <= r < n && rec[r] == Wait
    ensures r != -1 ==> forall g :: k <= g < r ==> rec[g] != Wait
  {
    if k >= n then -1
    else if rec[k] == Wait then k
    else LowestWaitingFrom(rec, n, k + 1)
  }

  /** `decideNextGroup`'s answer when the waiting count is right. */
  function NextGroup(c: Config, s: State): int
    requires Shaped(c, s)
  {
    if s.groupsWaiting == 0 then -1 else LowestWaitingFrom(s.groupRecord, c.nGroups, 0)
  }

  // ---------------------------------------------------------------------------
  // Counting

  /** How many of the first `n` groups are recorded in phase `p`. */
  function CountIn(rec: seq<Phase>, n: nat, p: Phase): (k: nat)
    requires n <= |rec|
    ensures k <= n
  {
    if n == 0 then 0 else CountIn(rec, n - 1, p) + (if rec[n - 1] == p then 1 else 0)
  }

  /** Sum of the first `k` counters. */
  function SumTo(xs: seq<nat>, k: nat): nat
    requires k <= |xs|
  {
    if k == 0 then 0 else SumTo(xs, k - 1) + xs[k - 1]
  }

  lemma {:induction false} CountSame(a: seq<Phase>, b: seq<Phase>, n: nat, p: Phase)
    requires n <= |a| && n <= |b|
    requires forall g :: 0 <= g < n ==> a[g] == b[g]
    ensures CountIn(a, n, p) == CountIn(b, n, p)
  {
    if n > 0 {
      CountSame(a, b, n - 1, p);
    }
  }

  /** Changing one record below `n` moves one unit between two counts. */
  lemma {:induction false} CountUpdate(rec: seq<Phase>, n: nat, i: nat, q: Phase, p: Phase)
    requires n <= |rec| && i < n
    ensures CountIn(rec[i := q], n, p)
      == CountIn(rec, n, p) - (if rec[i] == p then 1 else 0) + (if q == p then 1 else 0)
  {
    if i < n - 1 {
      CountUpdate(rec, n - 1, i, q, p);
    } else {
      CountSame(rec[i := q], rec, n - 1, p);
    }
  }

  /** No group below `n` is in phase `p` exactly when the count is zero. */
  lemma {:induction false} CountZero(rec: seq<Phase>, n: nat, p: Phase)
    requires n <= |rec|
    ensures CountIn(rec, n, p) == 0 <==> forall g :: 0 <= g < n ==> rec[g] != p
  {
    if n > 0 {
      CountZero(rec, n - 1, p);
    }
  }

  lemma {:induction false} SumBump(xs: seq<nat>, k: nat, v: nat)
    requires k <= |xs| && v < |xs|
    ensures SumTo(xs[v := xs[v] + 1], k) == SumTo(xs, k) + (if v < k then 1 else 0)
  {
    if k > 0 {
      SumBump(xs, k - 1, v);
    }
  }

  lemma {:induction false} SumZero(xs: seq<nat>, k: nat)
    requires k <= |xs| && forall i :: 0 <= i < |xs| ==> xs[i] == 0
    ensures SumTo(xs, k) == 0
  {
    if k > 0 {
      SumZero(xs, k - 1);
    }
  }

  /** Every group below `n` is in phase `p` exactly when all `n` are counted. */
  lemma {:induction false} CountAll(rec: seq<Phase>, n: nat, p: Phase)
    requires n <= |rec|
    ensures CountIn(rec, n, p) == n <==> forall g :: 0 <= g < n ==> rec[g] == p
  {
    if n > 0 {
      CountAll(rec, n - 1, p);
    }
  }

  /** How far a group has come: 0 before arriving, 1 waiting or seated, 2 done. */
  function Weight(p: Phase): nat
  {
    match p
    case ToArrive => 0
    case Wait => 1
    case AtTable => 1
    case Done => 2
  }

  /** Progress of the first `n` groups: each request a group makes adds one. */
  function ProgressOf(rec: seq<Phase>, n: nat): nat
    requires n <= |rec|
  {
    if n == 0 then 0 else ProgressOf(rec, n - 1) + Weight(rec[n - 1])
  }

  lemma {:induction false} ProgressSame(a: seq<Phase>, b: seq<Phase>, n: nat)
    requires n <= |a| && n <= |b|
    requires forall g :: 0 <= g < n ==> a[g] == b[g]
    ensures ProgressOf(a, n) == ProgressOf(b, n)
  {
    if n > 0 {
      ProgressSame(a, b, n - 1);
    }
  }

  lemma {:induction false} ProgressUpdate(rec: seq<Phase>, n: nat, i: nat, q: Phase)
    requires n <= |rec| && i < n
    ensures ProgressOf(rec[i := q], n) == ProgressOf(rec, n) - Weight(rec[i]) + Weight(q)
  {
    if i < n - 1 {
      ProgressUpdate(rec, n - 1, i, q);
    } else {
      ProgressSame(rec[i := q], rec, n - 1);
    }
  }

  /** Progress is at most two per group, and reaches it only when every group is done. */
  lemma {:induction false} ProgressFull(rec: seq<Phase>, n: nat)
    requires n <= |rec|
    ensures ProgressOf(rec, n) <= 2 * n
    ensures ProgressOf(rec, n) == 2 * n <==> forall g :: 0 <= g < n ==> rec[g] == Done
  {
    if n > 0 {
      ProgressFull(rec, n - 1);
    }
  }

  lemma {:induction false} ProgressNone(rec: seq<Phase>, n: nat)
    requires n <= |rec| && forall g :: 0 <= g < n ==> rec[g] == ToArrive
    ensures ProgressOf(rec, n) == 0
  {
    if n > 0 {
      ProgressNone(rec, n - 1);
    }
  }

  // ---------------------------------------------------------------------------
  // The invariant

  /** The ledger entry and the shared assignment agree: a seated group holds
      a real table, every other group holds none. */
  predicate Agrees(p: Phase, t: int, numTables: nat)
  {
    if p == AtTable then 0 <= t < numTables else t == -1
  }

  /** Number of `up`s a group's table-ready semaphore has had by phase `p`. */
  function TableSignals(p: Phase): nat
  {
    if p == AtTable || p == Done then 1 else 0
  }

  predicate LedgerMatches(rec: seq<Phase>, at: seq<int>, n: nat, numTables: nat)
    requires n <= |rec| && n <= |at|
  {
    forall g :: 0 <= g < n ==> Agrees(rec[g], at[g], numTables)
  }

  /** No two of the first `n` groups hold the same table. */
  predicate TablesUnique(at: seq<int>, n: nat)
    requires n <= |at|
  {
    forall i, j :: 0 <= i < n && 0 <= j < n && i != j && at[i] != -1 ==> at[i] != at[j]
  }

  predicate AllHeld(at: seq<int>, n: nat, numTables: nat)
    requires n <= |at|
  {
    forall t :: 0 <= t < numTables ==> Held(at, n, t)
  }

  /** Each group has been told "table ready" once exactly when it has been seated. */
  predicate SignalsMatch(rec: seq<Phase>, wft: seq<nat>, n: nat)
    requires n <= |rec| && n <= |wft|
  {
    forall g :: 0 <= g < n ==> wft[g] == TableSignals(rec[g])
  }

  /** What every request handled leaves true: the ledger and the assignment
      agree, tables are not shared, `groupsWaiting` counts the waiting groups,
      a group waits only while every table is held, each seated or finished
      group was signalled once, and each payment vacated a table once. */
  predicate Inv(c: Config, s: State)
  {
    && Shaped(c, s)
    && LedgerMatches(s.groupRecord, s.assignedTable, c.nGroups, c.numTables)
    && TablesUnique(s.assignedTable, c.nGroups)
    && s.groupsWaiting == CountIn(s.groupRecord, c.nGroups, Wait)
    && (s.groupsWaiting > 0 ==> AllHeld(s.assignedTable, c.nGroups, c.numTables))
    && SignalsMatch(s.groupRecord, s.waitForTable, c.nGroups)
    && SumTo(s.tableDone, c.numTables) == CountIn(s.groupRecord, c.nGroups, Done)
  }

  lemma LedgerSet(rec: seq<Phase>, at: seq<int>, n: nat, numTables: nat, i: nat, p: Phase, t: int)
    requires n <= |rec| && n <= |at| && i < |rec| && i < |at|
    requires LedgerMatches(rec, at, n, numTables) && Agrees(p, t, numTables)
    ensures LedgerMatches(rec[i := p], at[i := t], n, numTables)
  {
  }

  /** Giving group `i` a table no other group holds keeps tables unshared. */
  lemma UniqueSet(at: seq<int>, n: nat, i: nat, t: int)
    requires n <= |at| && i < |at| && TablesUnique(at, n)
    requires t == -1 || forall g :: 0 <= g < n && g != i ==> at[g] != t
    ensures TablesUnique(at[i := t], n)
  {
    var a := at[i := t];
    forall x, y | 0 <= x < n && 0 <= y < n && x != y && a[x] != -1
      ensures a[x] != a[y]
    {
      if x != i && y != i {
        assert a[x] == at[x] && a[y] == at[y];
      }
    }
  }

  lemma SignalsSet(rec: seq<Phase>, wft: seq<nat>, n: nat, i: nat, p: Phase, x: nat)
    requires n <= |rec| && n <= |wft| && i < |rec| && i < |wft|
    requires SignalsMatch(rec, wft, n) && x == TableSignals(p)
    ensures SignalsMatch(rec[i := p], wft[i := x], n)
  {
  }

  // ---------------------------------------------------------------------------
  // The state machine

  /** The state the shared-memory initializer and the static ledger give the
      receptionist: no table assigned, nobody waiting, no signal sent. */
  function Start(c: Config, chefStat: int, waiterStat: int, receptionistStat: int, groupStat: seq<int>): State
  {
    State(chefStat, waiterStat, receptionistStat, groupStat,
      seq(c.maxGroups, _ => -1), 0, seq(c.maxGroups, _ => ToArrive),
      seq(c.maxGroups, _ => 0), seq(c.numTables, _ => 0), [])
  }

  /** The ledger initialisation at the top of the receptionist's `main`. */
  function LedgerInit(c: Config, s: State): State
    requires Shaped(c, s)
  {
    s.(groupRecord := seq(c.maxGroups, g requires 0 <= g < c.maxGroups =>
      if g < c.nGroups then ToArrive else s.groupRecord[g]))
  }

  /** The receptionist's status becomes `stat` and the state is logged. */
  function Announce(c: Config, s: State, stat: int): State
    requires Shaped(c, s)
  {
    AppendSnapshot(c, s.(receptionistStat := stat))
  }

  /** `waitForGroup`'s effect on the state. */
  function AwaitRequest(c: Config, s: State): State
    requires Shaped(c, s)
  {
    Announce(c, s, c.waitRequest)
  }

  /** The decision of `provideTableOrWaitingRoom` carried out: group `n` is
      seated at `t` and signalled, or, when `t` is -1, sent to wait. */
  function Seat(c: Config, s: State, n: nat, t: int): State
    requires Shaped(c, s) && n < c.nGroups
  {
    if t == -1 then
      s.(assignedTable := s.assignedTable[n := t],
         groupsWaiting := s.groupsWaiting + 1,
         groupRecord := s.groupRecord[n := Wait])
    else
      s.(assignedTable := s.assignedTable[n := t],
         groupRecord := s.groupRecord[n := AtTable],
         waitForTable := s.waitForTable[n := s.waitForTable[n] + 1])
  }

  /** `provideTableOrWaitingRoom(n)`. */
  function TableRequest(c: Config, s: State, n: nat): State
    requires Shaped(c, s) && n < c.nGroups
  {
    var s1 := Announce(c, s, c.assignTable);
    Seat(c, s1, n, LowestFreeTable(s1.assignedTable, c.nGroups, c.numTables))
  }

  /** The first half of `receivePayment(n)`: logged, group `n` done, its table released. */
  function Vacate(c: Config, s: State, n: nat): State
    requires Shaped(c, s) && n < c.nGroups
  {
    var s1 := Announce(c, s, c.recvPay);
    s1.(groupRecord := s1.groupRecord[n := Done], assignedTable := s1.assignedTable[n := -1])
  }

  /** Waiting group `m` takes table `v`, is signalled, and stops waiting. */
  function Admit(s: State, m: nat, v: int): State
    requires m < |s.assignedTable| && m < |s.waitForTable| && m < |s.groupRecord|
  {
    s.(assignedTable := s.assignedTable[m := v],
       waitForTable := s.waitForTable[m := s.waitForTable[m] + 1],
       groupsWaiting := s.groupsWaiting - 1,
       groupRecord := s.groupRecord[m := AtTable])
  }

  /** One `up` on table `v`'s vacated semaphore. */
  function FreeTable(s: State, v: nat): State
    requires v < |s.tableDone|
  {
    s.(tableDone := s.tableDone[v := s.tableDone[v] + 1])
  }

  /** The second half of `receivePayment`: the next waiting group, if any,
      takes table `v`, and the table's vacated semaphore is signalled. */
  function Reseat(c: Config, s: State, v: nat): State
    requires Shaped(c, s) && v < c.numTables
  {
    var m := NextGroup(c, s);
    FreeTable(if m == -1 then s else Admit(s, m, v), v)
  }

  /** `receivePayment(n)`; the source indexes the table array with group
      `n`'s table, which must therefore be a real one. */
  function Payment(c: Config, s: State, n: nat): State
    requires Shaped(c, s) && n < c.nGroups && 0 <= s.assignedTable[n] < c.numTables
  {
    Reseat(c, Vacate(c, s, n), s.assignedTable[n])
  }

  /** What the group protocol guarantees of the request in the slot: a table
      request comes from a group that has not arrived yet, a bill request from
      a seated group. */
  predicate Serviceable(c: Config, s: State, req: Request)
    requires Shaped(c, s)
  {
    match req.reqType
    case TableReq => 0 <= req.reqGroup < c.nGroups && s.groupRecord[req.reqGroup] == ToArrive
    case BillReq => 0 <= req.reqGroup < c.nGroups && s.groupRecord[req.reqGroup] == AtTable
    case OtherReq(_) => true
  }

  /** The switch in `main`. */
  function Dispatch(c: Config, s: State, req: Request): State
    requires Inv(c, s) && Serviceable(c, s, req)
  {
    match req.reqType
    case TableReq => TableRequest(c, s, req.reqGroup)
    case BillReq => Payment(c, s, req.reqGroup)
    case OtherReq(_) => s
  }

  /** One iteration of the receptionist's loop: wait for a request, handle it. */
  function Step(c: Config, s: State, req: Request): State
    requires Inv(c, s) && Serviceable(c, s, req)
  {
    AnnounceKeepsInv(c, s, c.waitRequest);
    Dispatch(c, AwaitRequest(c, s), req)
  }

  /** Every request of `reqs` is serviceable when its turn comes. */
  predicate Admissible(c: Config, s: State, reqs: seq<Request>)
    requires Inv(c, s)
    decreases |reqs|
  {
    reqs == [] ||
    (Serviceable(c, s, reqs[0]) && (StepKeepsInv(c, s, reqs[0]); Admissible(c, Step(c, s, reqs[0]), reqs[1..])))
  }

  /** The state after the loop has handled `reqs` in order. */
  function Serve(c: Config, s: State, reqs: seq<Request>): (e: State)
    requires Inv(c, s) && Admissible(c, s, reqs)
    decreases |reqs|
    ensures Inv(c, e)
  {
    if reqs == [] then s
    else
      StepKeepsInv(c, s, reqs[0]);
      Serve(c, Step(c, s, reqs[0]), reqs[1..])
  }

  // ---------------------------------------------------------------------------
  // Properties

  /** Changing the status and logging touch nothing the invariant speaks of. */
  lemma AnnounceKeepsInv(c: Config, s: State, stat: int)
    requires Inv(c, s)
    ensures var a := Announce(c, s, stat);
      && Inv(c, a) && a.groupRecord == s.groupRecord && a.assignedTable == s.assignedTable
      && a.groupsWaiting == s.groupsWaiting && a.waitForTable == s.waitForTable && a.tableDone == s.tableDone
  {
  }

  /** The starting state satisfies the invariant. */
  lemma StartInv(c: Config, chefStat: int, waiterStat: int, receptionistStat: int, groupStat: seq<int>)
    requires c.nGroups <= c.maxGroups && |groupStat| == c.maxGroups
    ensures Inv(c, Start(c, chefStat, waiterStat, receptionistStat, groupStat))
  {
    var s := Start(c, chefStat, waiterStat, receptionistStat, groupStat);
    CountZero(s.groupRecord, c.nGroups, Wait);
    CountZero(s.groupRecord, c.nGroups, Done);
    SumZero(s.tableDone, c.numTables);
  }

  /** The ledger initialisation leaves a started receptionist where it was. */
  lemma LedgerInitOfStart(c: Config, chefStat: int, waiterStat: int, receptionistStat: int, groupStat: seq<int>)
    requires c.nGroups <= c.maxGroups && |groupStat| == c.maxGroups
    ensures var s := Start(c, chefStat, waiterStat, receptionistStat, groupStat);
      LedgerInit(c, s) == s
  {
    var s := Start(c, chefStat, waiterStat, receptionistStat, groupStat);
    assert LedgerInit(c, s).groupRecord == s.groupRecord;
  }

  /** What a table request does: group `n` gets the lowest free table and is
      told so once, or, when every table is held, joins the waiting groups;
      nothing else changes but the status and the log. */
  lemma TableRequestOutcome(c: Config, s: State, n: nat)
    requires Shaped(c, s) && n < c.nGroups
    ensures var r := TableRequest(c, s, n); var t := r.assignedTable[n];
      && r.receptionistStat == c.assignTable
      && (t == -1 <==> AllHeld(s.assignedTable, c.nGroups, c.numTables))
      && (t == -1 ==> r.groupRecord[n] == Wait && r.groupsWaiting == s.groupsWaiting + 1 && r.waitForTable == s.waitForTable)
      && (t != -1 ==> 0 <= t < c.numTables && !Held(s.assignedTable, c.nGroups, t)
                      && (forall u :: 0 <= u < t ==> Held(s.assignedTable, c.nGroups, u))
                      && r.groupRecord[n] == AtTable && r.groupsWaiting == s.groupsWaiting
                      && r.waitForTable == s.waitForTable[n := s.waitForTable[n] + 1])
      && (forall g :: 0 <= g < c.maxGroups && g != n ==>
            r.assignedTable[g] == s.assignedTable[g] && r.groupRecord[g] == s.groupRecord[g])
      && r.tableDone == s.tableDone
  {
    var t := LowestFreeTable(s.assignedTable, c.nGroups, c.numTables);
    assert Announce(c, s, c.assignTable).assignedTable == s.assignedTable;
    if t != -1 {
      assert !AllHeld(s.assignedTable, c.nGroups, c.numTables) by {
        assert !Held(s.assignedTable, c.nGroups, t);
      }
    }
  }

  /** Seating or queueing a group that has not arrived keeps the invariant. */
  lemma SeatKeepsInv(c: Config, s: State, n: nat)
    requires Inv(c, s) && n < c.nGroups && s.groupRecord[n] == ToArrive
    ensures Inv(c, Seat(c, s, n, LowestFreeTable(s.assignedTable, c.nGroups, c.numTables)))
  {
    var t := LowestFreeTable(s.assignedTable, c.nGroups, c.numTables);
    var r := Seat(c, s, n, t);
    var p := if t == -1 then Wait else AtTable;
    assert r.groupRecord == s.groupRecord[n := p];
    assert r.assignedTable == s.assignedTable[n := t];
    LedgerSet(s.groupRecord, s.assignedTable, c.nGroups, c.numTables, n, p, t);
    UniqueSet(s.assignedTable, c.nGroups, n, t);
    SignalsSet(s.groupRecord, s.waitForTable, c.nGroups, n, p, r.waitForTable[n]);
    assert r.waitForTable == s.waitForTable[n := r.waitForTable[n]];
    CountUpdate(s.groupRecord, c.nGroups, n, p, Wait);
    CountUpdate(s.groupRecord, c.nGroups, n, p, Done);
    if t == -1 {
      assert r.assignedTable == s.assignedTable;
    } else {
      assert s.groupsWaiting == 0;
    }
  }

  /** A table request from a group that has not arrived keeps the invariant. */
  lemma TableRequestKeepsInv(c: Config, s: State, n: nat)
    requires Inv(c, s) && n < c.nGroups && s.groupRecord[n] == ToArrive
    ensures Inv(c, TableRequest(c, s, n))
  {
    AnnounceKeepsInv(c, s, c.assignTable);
    SeatKeepsInv(c, Announce(c, s, c.assignTable), n);
  }

  /** The state between the two halves of a payment: table `v` is held by
      nobody, and the payment is counted as done but not yet as a vacated table. */
  predicate Vacated(c: Config, s: State, v: nat)
  {
    && Shaped(c, s)
    && v < c.numTables
    && LedgerMatches(s.groupRecord, s.assignedTable, c.nGroups, c.numTables)
    && TablesUnique(s.assignedTable, c.nGroups)
    && (forall g :: 0 <= g < c.nGroups ==> s.assignedTable[g] != v)
    && s.groupsWaiting == CountIn(s.groupRecord, c.nGroups, Wait)
    && (s.groupsWaiting > 0 ==> forall t :: 0 <= t < c.numTables && t != v ==> Held(s.assignedTable, c.nGroups, t))
    && SignalsMatch(s.groupRecord, s.waitForTable, c.nGroups)
    && SumTo(s.tableDone, c.numTables) + 1 == CountIn(s.groupRecord, c.nGroups, Done)
  }

  /** Releasing the table of seated group `i`, on the plain sequences. */
  lemma Release(rec: seq<Phase>, at: seq<int>, wft: seq<nat>, n: nat, numTables: nat, i: nat, released: seq<int>)
    requires n <= |rec| && n <= |at| && n <= |wft| && i < n && released == at[i := -1]
    requires LedgerMatches(rec, at, n, numTables) && TablesUnique(at, n) && SignalsMatch(rec, wft, n)
    requires rec[i] == AtTable
    ensures LedgerMatches(rec[i := Done], released, n, numTables)
    ensures TablesUnique(released, n)
    ensures SignalsMatch(rec[i := Done], wft, n)
    ensures forall g :: 0 <= g < n ==> released[g] != at[i]
    ensures AllHeld(at, n, numTables) ==>
      forall t :: 0 <= t < numTables && t != at[i] ==> Held(released, n, t)
  {
    LedgerSet(rec, at, n, numTables, i, Done, -1);
    UniqueSet(at, n, i, -1);
    SignalsSet(rec, wft, n, i, Done, wft[i]);
    assert wft[i := wft[i]] == wft;
    if AllHeld(at, n, numTables) {
      forall t | 0 <= t < numTables && t != at[i]
        ensures Held(released, n, t)
      {
        assert Held(at, n, t);
        var g :| 0 <= g < n && at[g] == t;
        assert released[g] == t;
      }
    }
  }

  lemma VacateGivesVacated(c: Config, s: State, n: nat)
    requires Inv(c, s) && n < c.nGroups && s.groupRecord[n] == AtTable
    ensures Vacated(c, Vacate(c, s, n), s.assignedTable[n])
  {
    AnnounceKeepsInv(c, s, c.recvPay);
    var r := Vacate(c, s, n);
    assert r.groupRecord == s.groupRecord[n := Done];
    assert r.assignedTable == s.assignedTable[n := -1];
    assert r.waitForTable == s.waitForTable && r.tableDone == s.tableDone && r.groupsWaiting == s.groupsWaiting;
    Release(s.groupRecord, s.assignedTable, s.waitForTable, c.nGroups, c.numTables, n, r.assignedTable);
    CountUpdate(s.groupRecord, c.nGroups, n, Done, Wait);
    CountUpdate(s.groupRecord, c.nGroups, n, Done, Done);
  }

  /** Handing the vacated table on restores the invariant. */
  lemma ReseatKeepsInv(c: Config, s: State, v: nat)
    requires Vacated(c, s, v)
    ensures Inv(c, Reseat(c, s, v))
  {
    var m := NextGroup(c, s);
    var r := Reseat(c, s, v);
    SumBump(s.tableDone, c.numTables, v);
    if m == -1 {
      if s.groupsWaiting != 0 {
        CountZero(s.groupRecord, c.nGroups, Wait);
      }
    } else {
      assert s.groupRecord[m] == Wait && s.assignedTable[m] == -1;
      assert r.groupRecord == s.groupRecord[m := AtTable];
      assert r.assignedTable == s.assignedTable[m := v];
      assert r.waitForTable == s.waitForTable[m := 1];
      LedgerSet(s.groupRecord, s.assignedTable, c.nGroups, c.numTables, m, AtTable, v);
      UniqueSet(s.assignedTable, c.nGroups, m, v);
      SignalsSet(s.groupRecord, s.waitForTable, c.nGroups, m, AtTable, 1);
      CountUpdate(s.groupRecord, c.nGroups, m, AtTable, Wait);
      CountUpdate(s.groupRecord, c.nGroups, m, AtTable, Done);
      if r.groupsWaiting > 0 {
        forall t | 0 <= t < c.numTables
          ensures Held(r.assignedTable, c.nGroups, t)
        {
          if t == v {
            assert r.assignedTable[m] == t;
          } else {
            assert Held(s.assignedTable, c.nGroups, t);
            var g :| 0 <= g < c.nGroups && s.assignedTable[g] == t;
            assert r.assignedTable[g] == t;
          }
        }
      }
    }
  }

  /** A payment by a seated group keeps the invariant. */
  lemma PaymentKeepsInv(c: Config, s: State, n: nat)
    requires Inv(c, s) && n < c.nGroups && s.groupRecord[n] == AtTable
    ensures Inv(c, Payment(c, s, n))
  {
    VacateGivesVacated(c, s, n);
    ReseatKeepsInv(c, Vacate(c, s, n), s.assignedTable[n]);
  }

  /** Two ledgers that agree on who waits among groups `k..n-1` give the
      same lowest waiting group from `k`. */
  lemma {:induction false} LowestWaitingAgree(a: seq<Phase>, b: seq<Phase>, n: nat, k: nat)
    requires n <= |a| && n <= |b|
    requires forall g :: k <= g < n ==> (a[g] == Wait <==> b[g] == Wait)
    decreases n - k
    ensures LowestWaitingFrom(a, n, k) == LowestWaitingFrom(b, n, k)
  {
    if k < n && a[k] != Wait {
      LowestWaitingAgree(a, b, n, k + 1);
    }
  }

  /** Marking a non-waiting group done does not change who waits first. */
  lemma LowestWaitingSame(rec: seq<Phase>, n: nat, i: nat)
    requires n <= |rec| && i < |rec| && rec[i] != Wait
    ensures LowestWaitingFrom(rec[i := Done], n, 0) == LowestWaitingFrom(rec, n, 0)
  {
    LowestWaitingAgree(rec[i := Done], rec, n, 0);
  }

  /** What the second half of a payment does: the lowest waiting group, if
      any, takes table `v` and is told so once; the table is signalled once. */
  lemma ReseatOutcome(c: Config, w: State, v: nat)
    requires Shaped(c, w) && v < c.numTables
    requires w.groupsWaiting == CountIn(w.groupRecord, c.nGroups, Wait)
    ensures var r := Reseat(c, w, v);
      && r.receptionistStat == w.receptionistStat
      && r.tableDone == w.tableDone[v := w.tableDone[v] + 1]
      && (w.groupsWaiting == 0 ==>
            r.groupsWaiting == 0 && r.waitForTable == w.waitForTable
            && r.assignedTable == w.assignedTable && r.groupRecord == w.groupRecord)
      && (w.groupsWaiting > 0 ==>
            var m := LowestWaitingFrom(w.groupRecord, c.nGroups, 0);
            && 0 <= m < c.nGroups && w.groupRecord[m] == Wait
            && r.assignedTable == w.assignedTable[m := v] && r.groupRecord == w.groupRecord[m := AtTable]
            && r.groupsWaiting == w.groupsWaiting - 1
            && r.waitForTable == w.waitForTable[m := w.waitForTable[m] + 1])
  {
    if w.groupsWaiting > 0 {
      CountZero(w.groupRecord, c.nGroups, Wait);
    }
  }

  /** What a payment does to the paying group: it is done and holds no
      table, and its table is signalled as vacated once. */
  lemma PaymentSettles(c: Config, s: State, n: nat)
    requires Inv(c, s) && n < c.nGroups && s.groupRecord[n] == AtTable
    ensures var r := Payment(c, s, n); var v := s.assignedTable[n];
      && r.receptionistStat == c.recvPay
      && r.groupRecord[n] == Done && r.assignedTable[n] == -1
      && r.tableDone == s.tableDone[v := s.tableDone[v] + 1]
  {
    var w, v := Vacate(c, s, n), s.assignedTable[n];
    VacateFields(c, s, n);
    CountUpdate(s.groupRecord, c.nGroups, n, Done, Wait);
    ReseatOutcome(c, w, v);
    var r := Reseat(c, w, v);
    assert Payment(c, s, n) == r;
    if w.groupsWaiting > 0 {
      var m := LowestWaitingFrom(w.groupRecord, c.nGroups, 0);
      assert m != n by {
        assert w.groupRecord[n] == Done;
      }
      assert r.groupRecord[n] == w.groupRecord[n] && r.assignedTable[n] == w.assignedTable[n];
    }
  }

  /** Who gets the vacated table: nobody when no group waits; otherwise the
      lowest-numbered waiting group, which is seated at it and told so once. */
  lemma PaymentHandsOver(c: Config, s: State, n: nat)
    requires Inv(c, s) && n < c.nGroups && s.groupRecord[n] == AtTable
    ensures var r := Payment(c, s, n); var v := s.assignedTable[n];
      && (s.groupsWaiting == 0 ==>
            r.groupsWaiting == 0 && r.waitForTable == s.waitForTable
            && r.assignedTable == s.assignedTable[n := -1] && r.groupRecord == s.groupRecord[n := Done])
      && (s.groupsWaiting > 0 ==>
            var m := LowestWaitingFrom(s.groupRecord, c.nGroups, 0);
            && 0 <= m < c.nGroups && m != n && s.groupRecord[m] == Wait
            && (forall g :: 0 <= g < m ==> s.groupRecord[g] != Wait)
            && r.assignedTable == s.assignedTable[n := -1][m := v]
            && r.groupRecord == s.groupRecord[n := Done][m := AtTable]
            && r.groupsWaiting == s.groupsWaiting - 1
            && r.waitForTable == s.waitForTable[m := s.waitForTable[m] + 1])
  {
    var w := Vacate(c, s, n);
    VacateFields(c, s, n);
    CountUpdate(s.groupRecord, c.nGroups, n, Done, Wait);
    ReseatOutcome(c, w, s.assignedTable[n]);
    LowestWaitingSame(s.groupRecord, c.nGroups, n);
  }

  lemma VacateFields(c: Config, s: State, n: nat)
    requires Shaped(c, s) && n < c.nGroups
    ensures var w := Vacate(c, s, n);
      && w.groupRecord == s.groupRecord[n := Done] && w.assignedTable == s.assignedTable[n := -1]
      && w.receptionistStat == c.recvPay && w.waitForTable == s.waitForTable
      && w.tableDone == s.tableDone && w.groupsWaiting == s.groupsWaiting
  {
  }

  /** One iteration of the loop keeps the invariant. */
  lemma StepKeepsInv(c: Config, s: State, req: Request)
    requires Inv(c, s) && Serviceable(c, s, req)
    ensures Inv(c, AwaitRequest(c, s))
    ensures Inv(c, Step(c, s, req))
  {
    AnnounceKeepsInv(c, s, c.waitRequest);
    var a := AwaitRequest(c, s);
    match req.reqType
    case TableReq => TableRequestKeepsInv(c, a, req.reqGroup);
    case BillReq => PaymentKeepsInv(c, a, req.reqGroup);
    case OtherReq(_) =>
  }

  /** Serving a non-empty list is serving its first request, then the rest. */
  lemma ServeUnfold(c: Config, s: State, reqs: seq<Request>)
    requires Inv(c, s) && Admissible(c, s, reqs) && reqs != []
    ensures Serviceable(c, s, reqs[0])
    ensures Inv(c, Step(c, s, reqs[0]))
    ensures Admissible(c, Step(c, s, reqs[0]), reqs[1..])
    ensures Serve(c, s, reqs) == Serve(c, Step(c, s, reqs[0]), reqs[1..])
  {
    StepKeepsInv(c, s, reqs[0]);
  }

  /** Each table or bill request moves one group one phase on. */
  lemma StepProgress(c: Config, s: State, req: Request)
    requires Inv(c, s) && Serviceable(c, s, req) && !req.reqType.OtherReq?
    ensures ProgressOf(Step(c, s, req).groupRecord, c.nGroups) == ProgressOf(s.groupRecord, c.nGroups) + 1
  {
    AnnounceKeepsInv(c, s, c.waitRequest);
    var a := AwaitRequest(c, s);
    var n := req.reqGroup;
    var r := Step(c, s, req);
    if req.reqType.TableReq? {
      TableRequestOutcome(c, a, n);
      TableRequestKeepsInv(c, a, n);
      assert r.groupRecord == a.groupRecord[n := r.groupRecord[n]];
      ProgressUpdate(a.groupRecord, c.nGroups, n, r.groupRecord[n]);
    } else {
      PaymentHandsOver(c, a, n);
      var rec2 := a.groupRecord[n := Done];
      ProgressUpdate(a.groupRecord, c.nGroups, n, Done);
      if a.groupsWaiting > 0 {
        var m := LowestWaitingFrom(a.groupRecord, c.nGroups, 0);
        ProgressUpdate(rec2, c.nGroups, m, AtTable);
      }
    }
  }

  /** Each table or bill request served adds one to the progress. */
  lemma {:induction false} ServeProgress(c: Config, s: State, reqs: seq<Request>)
    requires Inv(c, s) && Admissible(c, s, reqs)
    requires forall i :: 0 <= i < |reqs| ==> !reqs[i].reqType.OtherReq?
    decreases |reqs|
    ensures ProgressOf(Serve(c, s, reqs).groupRecord, c.nGroups) == ProgressOf(s.groupRecord, c.nGroups) + |reqs|
  {
    if reqs != [] {
      StepKeepsInv(c, s, reqs[0]);
      StepProgress(c, s, reqs[0]);
      ServeProgress(c, Step(c, s, reqs[0]), reqs[1..]);
    }
  }

  /** The receptionist's loop runs `2 * nGroups` times because each group
      makes two requests: once they have all been served, every group has
      paid and left, nobody waits, every group was told "table ready" once
      and every payment vacated a table once. */
  lemma AllServed(c: Config, s: State, reqs: seq<Request>)
    requires Inv(c, s) && Admissible(c, s, reqs)
    requires forall g :: 0 <= g < c.nGroups ==> s.groupRecord[g] == ToArrive
    requires |reqs| == 2 * c.nGroups
    requires forall i :: 0 <= i < |reqs| ==> !reqs[i].reqType.OtherReq?
    ensures var e := Serve(c, s, reqs);
      && (forall g :: 0 <= g < c.nGroups ==>
            e.groupRecord[g] == Done && e.assignedTable[g] == -1 && e.waitForTable[g] == 1)
      && e.groupsWaiting == 0
      && SumTo(e.tableDone, c.numTables) == c.nGroups
  {
    var e := Serve(c, s, reqs);
    ServeProgress(c, s, reqs);
    ProgressNone(s.groupRecord, c.nGroups);
    ProgressFull(e.groupRecord, c.nGroups);
    CountZero(e.groupRecord, c.nGroups, Wait);
    CountAll(e.groupRecord, c.nGroups, Done);
  }

  /** Two groups and one table: group 0 is seated, group 1 waits, group 0's
      payment hands the table to group 1, and group 1's payment frees it. */
  lemma TwoGroupsOneTable(c: Config, groupStat: seq<int>)
    requires c.nGroups == 2 && c.numTables == 1 && c.maxGroups == 2 && |groupStat| == 2
    ensures var s0 := LedgerInit(c, Start(c, 0, 0, 0, groupStat));
      && Inv(c, s0)
      && var s1 := TableRequest(c, s0, 0);
      && s1.assignedTable == [0, -1] && s1.groupsWaiting == 0
      && var s2 := TableRequest(c, s1, 1);
      && Inv(c, s2)
      && s2.assignedTable == [0, -1] && s2.groupsWaiting == 1 && s2.groupRecord == [AtTable, Wait]
      && var s3 := Payment(c, s2, 0);
      && Inv(c, s3)
      && s3.assignedTable == [-1, 0] && s3.groupsWaiting == 0 && s3.groupRecord == [Done, AtTable]
      && var s4 := Payment(c, s3, 1);
      && s4.assignedTable == [-1, -1] && s4.groupsWaiting == 0 && s4.groupRecord == [Done, Done]
      && s4.tableDone == [2] && s4.waitForTable == [1, 1]
  {
    ScenarioSeating(c, groupStat);
    var s0 := LedgerInit(c, Start(c, 0, 0, 0, groupStat));
    ScenarioPayments(c, TableRequest(c, TableRequest(c, s0, 0), 1));
  }

  /** The first half of the scenario: group 0 takes the table, group 1 waits. */
  lemma ScenarioSeating(c: Config, groupStat: seq<int>)
    requires c.nGroups == 2 && c.numTables == 1 && c.maxGroups == 2 && |groupStat| == 2
    ensures var s0 := LedgerInit(c, Start(c, 0, 0, 0, groupStat));
      && Inv(c, s0)
      && var s1 := TableRequest(c, s0, 0);
      && s1.assignedTable == [0, -1] && s1.groupsWaiting == 0
      && var s2 := TableRequest(c, s1, 1);
      && Inv(c, s2)
      && s2.assignedTable == [0, -1] && s2.groupsWaiting == 1 && s2.groupRecord == [AtTable, Wait]
      && s2.waitForTable == [1, 0] && s2.tableDone == [0]
  {
    var s := Start(c, 0, 0, 0, groupStat);
    StartInv(c, 0, 0, 0, groupStat);
    LedgerInitOfStart(c, 0, 0, 0, groupStat);
    var s0 := LedgerInit(c, s);
    assert s0.assignedTable == [-1, -1] && s0.groupRecord == [ToArrive, ToArrive];
    assert s0.waitForTable == [0, 0] && s0.tableDone == [0];
    var s1 := TableRequest(c, s0, 0);
    TableRequestOutcome(c, s0, 0);
    TableRequestKeepsInv(c, s0, 0);
    assert !Held(s0.assignedTable, 2, 0);
    assert s1.assignedTable == [0, -1] && s1.groupRecord == [AtTable, ToArrive];
    TableRequestOutcome(c, s1, 1);
    TableRequestKeepsInv(c, s1, 1);
    assert Held(s1.assignedTable, 2, 0);
  }

  /** The second half: group 0's payment hands the table to group 1, whose
      payment frees it with nobody left waiting. */
  lemma ScenarioPayments(c: Config, s2: State)
    requires c.nGroups == 2 && c.numTables == 1 && c.maxGroups == 2 && Inv(c, s2)
    requires s2.assignedTable == [0, -1] && s2.groupsWaiting == 1 && s2.groupRecord == [AtTable, Wait]
    requires s2.waitForTable == [1, 0] && s2.tableDone == [0]
    ensures var s3 := Payment(c, s2, 0);
      && Inv(c, s3)
      && s3.assignedTable == [-1, 0] && s3.groupsWaiting == 0 && s3.groupRecord == [Done, AtTable]
      && var s4 := Payment(c, s3, 1);
      && s4.assignedTable == [-1, -1] && s4.groupsWaiting == 0 && s4.groupRecord == [Done, Done]
      && s4.tableDone == [2] && s4.waitForTable == [1, 1]
  {
    var s3 := Payment(c, s2, 0);
    PaymentSettles(c, s2, 0);
    PaymentHandsOver(c, s2, 0);
    PaymentKeepsInv(c, s2, 0);
    assert s3.assignedTable == [-1, 0] && s3.groupRecord == [Done, AtTable];
    PaymentSettles(c, s3, 1);
    PaymentHandsOver(c, s3, 1);
  }

  /** The scenario's requests are all served in turn: group 0 and then group
      1 ask for a table, then group 0 and then group 1 pay, each request
      coming from a group in the phase its kind needs. */
  lemma ScenarioAdmissible(c: Config, groupStat: seq<int>)
    requires c.nGroups == 2 && c.numTables == 1 && c.maxGroups == 2 && |groupStat| == 2
    ensures var s0 := LedgerInit(c, Start(c, 0, 0, 0, groupStat));
      && Inv(c, s0)
      && Admissible(c, s0, [Request(TableReq, 0), Request(TableReq, 1), Request(BillReq, 0), Request(BillReq, 1)])
  {
    var reqs := [Request(TableReq, 0), Request(TableReq, 1), Request(BillReq, 0), Request(BillReq, 1)];
    StartInv(c, 0, 0, 0, groupStat);
    LedgerInitOfStart(c, 0, 0, 0, groupStat);
    var s0 := LedgerInit(c, Start(c, 0, 0, 0, groupStat));
    assert s0.assignedTable == [-1, -1] && s0.groupRecord == [ToArrive, ToArrive];

    var a0 := AwaitRequest(c, s0);
    StepKeepsInv(c, s0, reqs[0]);
    var s1 := Step(c, s0, reqs[0]);
    TableRequestOutcome(c, a0, 0);
    assert !Held(a0.assignedTable, 2, 0);
    assert s1.assignedTable == [0, -1] && s1.groupRecord == [AtTable, ToArrive];

    var a1 := AwaitRequest(c, s1);
    StepKeepsInv(c, s1, reqs[1]);
    var s2 := Step(c, s1, reqs[1]);
    TableRequestOutcome(c, a1, 1);
    assert Held(a1.assignedTable, 2, 0);
    assert s2.groupRecord == [AtTable, Wait];
    BillsAdmissible(c, s2);
    assert reqs[2..] == [Request(BillReq, 0), Request(BillReq, 1)];
    assert Admissible(c, s2, reqs[2..]);
    assert Admissible(c, s1, reqs[1..]);
  }

  /** The payment half of the scenario: with group 0 at the table and group 1
      waiting, group 0's bill and then group 1's bill are each served. */
  lemma BillsAdmissible(c: Config, s2: State)
    requires c.nGroups == 2 && c.numTables == 1 && c.maxGroups == 2 && Inv(c, s2)
    requires s2.groupRecord == [AtTable, Wait]
    ensures Admissible(c, s2, [Request(BillReq, 0), Request(BillReq, 1)])
  {
    var reqs := [Request(BillReq, 0), Request(BillReq, 1)];
    assert s2.groupsWaiting == CountIn(s2.groupRecord, 2, Wait) == 1;
    var a2 := AwaitRequest(c, s2);
    AnnounceKeepsInv(c, s2, c.waitRequest);
    StepKeepsInv(c, s2, reqs[0]);
    var s3 := Step(c, s2, reqs[0]);
    PaymentHandsOver(c, a2, 0);
    assert s3.groupRecord[1] == AtTable;
    StepKeepsInv(c, s3, reqs[1]);
    assert Admissible(c, s3, reqs[1..]);
  }
}
