/** The receptionist process: its view of the shared full state, its private
    ledger and the two semaphore arrays it signals, updated in place by the
    operations of its life cycle. */
module Reception {
  import opened Logging
  import opened Allocation

  class Receptionist {
    const c: Config
    var chefStat: int
    var waiterStat: int
    var receptionistStat: int
    var groupStat: seq<int>
    /** The shared `assignedTable`: a group's table, or -1. */
    const assignedTable: array<int>
    var groupsWaiting: int
    /** The receptionist's private ledger, one entry per group. */
    const groupRecord: array<Phase>
    /** How many `up`s each group's table-ready semaphore has had. */
    const waitForTable: array<nat>
    /** How many `up`s each table's vacated semaphore has had. */
    const tableDone: array<nat>
    /** The lines this process has written to the log, in order. */
    var lines: seq<string>
    /** The full states saved so far, one per line written. */
    ghost var saved: seq<FullStat>

    ghost predicate Valid()
      reads this
    {
      && c.nGroups <= c.maxGroups
      && |groupStat| == c.maxGroups
      && assignedTable.Length == c.maxGroups
      && groupRecord.Length == c.maxGroups
      && waitForTable.Length == c.maxGroups
      && tableDone.Length == c.numTables
      && waitForTable != tableDone
      && LinesOf(lines, saved)
    }

    ghost function Model(): State
      reads this, assignedTable, groupRecord, waitForTable, tableDone
    {
      State(chefStat, waiterStat, receptionistStat, groupStat, assignedTable[..], groupsWaiting,
        groupRecord[..], waitForTable[..], tableDone[..], saved)
    }

    /** The full state as `saveState` reads it. */
    function Full(): (f: FullStat)
      reads this, assignedTable
      requires Valid()
      ensures WellFormed(f)
    {
      FullStat(chefStat, waiterStat, receptionistStat, groupStat, c.nGroups, groupsWaiting, assignedTable[..])
    }

    /** The shared memory as its initializer leaves it, and the ledger as
        static storage leaves it. */
    constructor (c: Config, chefStat: int, waiterStat: int, receptionistStat: int, groupStat: seq<int>)
      requires c.nGroups <= c.maxGroups && |groupStat| == c.maxGroups
      ensures Valid() && this.c == c && lines == []
      ensures fresh(assignedTable) && fresh(groupRecord) && fresh(waitForTable) && fresh(tableDone)
      ensures Model() == Start(c, chefStat, waiterStat, receptionistStat, groupStat)
    {
      this.c := c;
      this.chefStat := chefStat;
      this.waiterStat := waiterStat;
      this.receptionistStat := receptionistStat;
      this.groupStat := groupStat;
      assignedTable := new int[c.maxGroups](_ => -1);
      groupsWaiting := 0;
      groupRecord := new Phase[c.maxGroups](_ => ToArrive);
      waitForTable := new nat[c.maxGroups](_ => 0);
      tableDone := new nat[c.numTables](_ => 0);
      lines := [];
      saved := [];
    }

    /** `saveState`: the full state is appended to the log as one line. */
    method SaveState()
      requires Valid()
      modifies this`lines, this`saved
      ensures Valid()
      ensures Model() == AppendSnapshot(c, old(Model()))
      ensures lines == old(lines) + [FormatLine(Snapshot(c, old(Model())))]
    {
      var f := Full();
      assert f == Snapshot(c, Model());
      var line := WriteState(f);
      LinesOfSnoc(lines, saved, f);
      lines := lines + [line];
      saved := saved + [f];
    }

    /** `decideTableOrWait`: the lowest-numbered table no group holds, or -1.
        Group `n` does not take part in the decision. */
    method DecideTableOrWait(n: int) returns (r: int)
      requires Valid()
      ensures r == LowestFreeTable(assignedTable[..], c.nGroups, c.numTables)
    {
      ghost var at := assignedTable[..];
      var table := 0;
      while table < c.numTables
        invariant 0 <= table <= c.numTables
        invariant LowestFreeFrom(at, c.nGroups, c.numTables, table) == LowestFreeTable(at, c.nGroups, c.numTables)
      {
        var g := 0;
        while g < c.nGroups && assignedTable[g] != table
          invariant 0 <= g <= c.nGroups
          invariant forall k :: 0 <= k < g ==> at[k] != table
        {
          g := g + 1;
        }
        if g == c.nGroups {
          return table;
        }
        assert at[g] == table;
        table := table + 1;
      }
      return -1;
    }

    /** `decideNextGroup`: -1 when no group waits, otherwise the lowest-numbered
        waiting group. Its loop leaves the answer unset when no group is
        recorded as waiting, so it relies on `groupsWaiting` counting them. */
    method DecideNextGroup() returns (r: int)
      requires Valid()
      requires groupsWaiting == CountIn(groupRecord[..], c.nGroups, Wait)
      ensures r == NextGroup(c, Model())
    {
      if groupsWaiting == 0 {
        return -1;
      }
      ghost var rec := groupRecord[..];
      CountZero(rec, c.nGroups, Wait);
      r := *;
      var n := 0;
      while n < c.nGroups
        invariant 0 <= n <= c.nGroups
        invariant LowestWaitingFrom(rec, c.nGroups, n) == LowestWaitingFrom(rec, c.nGroups, 0)
      {
        if groupRecord[n] == Wait {
          r := n;
          break;
        }
        n := n + 1;
      }
    }

    /** `waitForGroup`: status WAIT_REQUEST, logged, then the request a group
        left in the shared slot is taken. */
    method WaitForGroup(slot: Request) returns (req: Request)
      requires Valid()
      modifies this`receptionistStat, this`lines, this`saved
      ensures Valid()
      ensures req == slot
      ensures Model() == AwaitRequest(c, old(Model()))
    {
      receptionistStat := c.waitRequest;
      SaveState();
      req := slot;
    }

    /** `provideTableOrWaitingRoom(n)`: status ASSIGNTABLE, logged; group `n`
        gets the decided table and is signalled, or waits. */
    method ProvideTableOrWaitingRoom(n: int)
      requires Valid() && 0 <= n < c.nGroups
      modifies this, assignedTable, groupRecord, waitForTable
      ensures Valid()
      ensures Model() == TableRequest(c, old(Model()), n)
    {
      ghost var s0 := Model();
      receptionistStat := c.assignTable;
      SaveState();
      assert Model() == Announce(c, s0, c.assignTable);
      var t := DecideTableOrWait(n);
      SeatOrQueue(n, t);
    }

    /** The switch of `provideTableOrWaitingRoom`: group `n` is given table
        `t`; at -1 it joins the waiting groups, otherwise it is seated and
        signalled. */
    method SeatOrQueue(n: int, t: int)
      requires Valid() && 0 <= n < c.nGroups
      modifies this`groupsWaiting, assignedTable, groupRecord, waitForTable
      ensures Valid()
      ensures Model() == Allocation.Seat(c, old(Model()), n, t)
    {
      ghost var s := Model();
      assignedTable[n] := t;
      if t == -1 {
        groupsWaiting := groupsWaiting + 1;
        groupRecord[n] := Wait;
        assert waitForTable[..] == s.waitForTable;
      } else {
        groupRecord[n] := AtTable;
        waitForTable[n] := waitForTable[n] + 1;
        assert waitForTable[..] == s.waitForTable[n := s.waitForTable[n] + 1];
      }
      assert assignedTable[..] == s.assignedTable[n := t];
      assert groupRecord[..] == s.groupRecord[n := if t == -1 then Wait else AtTable];
      assert tableDone[..] == s.tableDone;
    }

    /** The waiting group `m` takes table `v`, is signalled, and stops waiting. */
    method HandOver(m: int, v: int)
      requires Valid() && 0 <= m < c.maxGroups
      modifies this`groupsWaiting, assignedTable, groupRecord, waitForTable
      ensures Valid()
      ensures Model() == Admit(old(Model()), m, v)
    {
      assignedTable[m] := v;
      waitForTable[m] := waitForTable[m] + 1;
      groupsWaiting := groupsWaiting - 1;
      groupRecord[m] := AtTable;
    }

    /** `up` on table `v`'s vacated semaphore. */
    method SignalVacated(v: int)
      requires Valid() && 0 <= v < c.numTables
      modifies tableDone
      ensures Valid()
      ensures Model() == FreeTable(old(Model()), v)
    {
      tableDone[v] := tableDone[v] + 1;
    }

    /** The first half of `receivePayment(n)`: status RECVPAY, logged; group
        `n` is done and gives up its table, which is returned. */
    method SettleBill(n: int) returns (vacant: int)
      requires Valid() && 0 <= n < c.nGroups
      requires groupRecord[n] != Wait
      requires groupsWaiting == CountIn(groupRecord[..], c.nGroups, Wait)
      modifies this, assignedTable, groupRecord
      ensures Valid()
      ensures vacant == old(assignedTable[n])
      ensures Model() == Vacate(c, old(Model()), n)
      ensures groupsWaiting == CountIn(groupRecord[..], c.nGroups, Wait)
    {
      ghost var s0 := Model();
      receptionistStat := c.recvPay;
      SaveState();
      ghost var s1 := Model();
      assert s1 == Announce(c, s0, c.recvPay);
      groupRecord[n] := Done;
      vacant := assignedTable[n];
      assignedTable[n] := -1;
      assert groupRecord[..] == s1.groupRecord[n := Done] && assignedTable[..] == s1.assignedTable[n := -1];
      CountUpdate(s1.groupRecord, c.nGroups, n, Done, Wait);
    }

    /** `receivePayment(n)`: status RECVPAY, logged; group `n` is done and its
        table is handed to the next waiting group, if any; the table's vacated
        semaphore is signalled. The source indexes the table array with `n`'s
        table and lets `decideNextGroup` rely on the waiting count. */
    method ReceivePayment(n: int)
      requires Valid() && 0 <= n < c.nGroups && 0 <= assignedTable[n] < c.numTables
      requires groupRecord[n] != Wait
      requires groupsWaiting == CountIn(groupRecord[..], c.nGroups, Wait)
      modifies this, assignedTable, groupRecord, waitForTable, tableDone
      ensures Valid()
      ensures Model() == Payment(c, old(Model()), n)
    {
      var vacant := SettleBill(n);
      ghost var w := Model();
      var next := DecideNextGroup();
      if next != -1 {
        HandOver(next, vacant);
      }
      ghost var h := Model();
      assert h == if next == -1 then w else Admit(w, next, vacant);
      SignalVacated(vacant);
      assert Model() == Reseat(c, w, vacant);
    }

    /** The ledger initialisation in `main`: every group is yet to arrive. */
    method InitLedger()
      requires Valid()
      modifies groupRecord
      ensures Valid()
      ensures Model() == LedgerInit(c, old(Model()))
    {
      var g := 0;
      while g < c.nGroups
        invariant 0 <= g <= c.nGroups
        invariant forall k :: 0 <= k < g ==> groupRecord[k] == ToArrive
        invariant forall k :: g <= k < groupRecord.Length ==> groupRecord[k] == old(groupRecord[k])
      {
        groupRecord[g] := ToArrive;
        g := g + 1;
      }
      assert groupRecord[..] == LedgerInit(c, old(Model())).groupRecord;
    }

    /** One iteration of the loop in `main`: wait for a request, then
        dispatch on its type; a type other than the two known is ignored. */
    method HandleRequest(slot: Request)
      requires Valid() && Inv(c, Model()) && Serviceable(c, Model(), slot)
      modifies this, assignedTable, groupRecord, waitForTable, tableDone
      ensures Valid()
      ensures Model() == Step(c, old(Model()), slot)
    {
      ghost var s := Model();
      AnnounceKeepsInv(c, s, c.waitRequest);
      var req := WaitForGroup(slot);
      match req.reqType {
        case TableReq =>
          ProvideTableOrWaitingRoom(req.reqGroup);
        case BillReq =>
          ReceivePayment(req.reqGroup);
        case OtherReq(_) =>
      }
    }

    /** The request loop of `main`: the first `total` requests are handled
        one after another, which is `Serve` over them. */
    method ServeRequests(reqs: seq<Request>, total: nat)
      requires Valid() && total <= |reqs|
      requires Inv(c, Model()) && Admissible(c, Model(), reqs[..total])
      modifies this, assignedTable, groupRecord, waitForTable, tableDone
      ensures Valid()
      ensures Model() == Serve(c, old(Model()), reqs[..total])
    {
      ghost var start := Model();
      ghost var all := reqs[..total];
      var nReq := 0;
      while nReq < total
        invariant 0 <= nReq <= total
        invariant Valid() && Inv(c, Model())
        invariant Admissible(c, Model(), all[nReq..])
        invariant Serve(c, Model(), all[nReq..]) == Serve(c, start, all)
      {
        ghost var s := Model();
        assert all[nReq..][0] == reqs[nReq] && all[nReq..][1..] == all[nReq + 1..];
        ServeUnfold(c, s, all[nReq..]);
        HandleRequest(reqs[nReq]);
        nReq := nReq + 1;
      }
      assert all[nReq..] == [];
    }

    /** The life cycle in `main`: the ledger marks every group as yet to
        arrive, then `2 * nGroups` requests are taken and handled in turn. */
    method Run(reqs: seq<Request>)
      requires Valid() && |reqs| >= 2 * c.nGroups
      requires Inv(c, LedgerInit(c, Model()))
      requires Admissible(c, LedgerInit(c, Model()), reqs[..2 * c.nGroups])
      modifies this, assignedTable, groupRecord, waitForTable, tableDone
      ensures Valid()
      ensures Model() == Serve(c, LedgerInit(c, old(Model())), reqs[..2 * c.nGroups])
      ensures (forall i :: 0 <= i < 2 * c.nGroups ==> !reqs[i].reqType.OtherReq?) ==>
        && (forall g :: 0 <= g < c.nGroups ==>
              groupRecord[g] == Done && assignedTable[g] == -1 && waitForTable[g] == 1)
        && groupsWaiting == 0
    {
      InitLedger();
      ghost var start := Model();
      ghost var all := reqs[..2 * c.nGroups];
      ServeRequests(reqs, 2 * c.nGroups);
      if forall i :: 0 <= i < 2 * c.nGroups ==> !reqs[i].reqType.OtherReq? {
        AllServed(c, start, all);
      }
    }
  }

  /** The receptionist's whole process for two groups and one table: the
      static ledger and the shared state are set up, then the life cycle
      serves both groups' table and bill requests. Both groups end done
      with no table, each was signalled once, and nobody waits. */
  method TwoGroupsLifecycle(groupStat: seq<int>) returns (r: Receptionist)
    requires |groupStat| == 2
    ensures r.Valid() && r.c == Config(2, 1, 2, 0, 1, 2) && r.groupsWaiting == 0
    ensures forall g :: 0 <= g < 2 ==>
      r.groupRecord[g] == Done && r.assignedTable[g] == -1 && r.waitForTable[g] == 1
  {
    var c := Config(2, 1, 2, 0, 1, 2);
    var reqs := [Request(TableReq, 0), Request(TableReq, 1), Request(BillReq, 0), Request(BillReq, 1)];
    assert reqs[..2 * c.nGroups] == reqs;
    assert forall i :: 0 <= i < 2 * c.nGroups ==> !reqs[i].reqType.OtherReq?;
    ScenarioAdmissible(c, groupStat);
    r := new Receptionist(c, 0, 0, 0, groupStat);
    r.Run(reqs);
  }
}
