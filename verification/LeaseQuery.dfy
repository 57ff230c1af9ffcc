/** The query of `lease_abandoned`: the oldest abandoned executions, up to a limit, without the
    rows another transaction holds. */
module LeaseQueries {
  import opened Proposals
  import opened Transactions
  import opened Wrappers
  import opened StableSort
  import Saga

  /** A row the query is after. The join drops an execution without its proposal. */
  predicate Wanted(db: Database, cutoff: int, leaseExpiry: int, locked: set<nat>, e: nat) {
    && e < |db.executions|
    && e !in locked
    && db.executions[e].proposalId < |db.proposals|
    && Abandoned(db.executions[e], cutoff, leaseExpiry)
  }

  function CreatedAt(db: Database, e: nat): int {
    if e < |db.executions| then db.executions[e].createdAt else 0
  }

  predicate Older(db: Database, a: nat, b: nat) {
    CreatedAt(db, a) < CreatedAt(db, b)
  }

  function WantedBelow(db: Database, cutoff: int, leaseExpiry: int, locked: set<nat>, n: nat): (rows: seq<nat>)
    ensures forall e: nat :: e in rows <==> e < n && Wanted(db, cutoff, leaseExpiry, locked, e)
  {
    if n == 0 then []
    else
      WantedBelow(db, cutoff, leaseExpiry, locked, n - 1)
      + (if Wanted(db, cutoff, leaseExpiry, locked, n - 1) then [n - 1] else [])
  }

  ghost predicate Distinct(rows: seq<nat>) {
    forall i, j | 0 <= i < j < |rows| :: rows[i] != rows[j]
  }

  lemma {:induction false} DistinctCountsOnce(rows: seq<nat>, e: nat)
    requires Distinct(rows)
    ensures multiset(rows)[e] <= 1
  {
    if rows == [] {
    } else {
      var rest := rows[..|rows| - 1];
      assert rows == rest + [rows[|rows| - 1]];
      DistinctCountsOnce(rest, e);
      assert rows[|rows| - 1] !in rest;
    }
  }

  lemma DistinctPermutes(a: seq<nat>, b: seq<nat>)
    requires Distinct(a) && multiset(a) == multiset(b)
    ensures Distinct(b)
  {
    forall i, j | 0 <= i < j < |b|
      ensures b[i] != b[j]
    {
      assert b == b[..j] + [b[j]] + b[j + 1..];
      assert b[i] in b[..j];
      DistinctCountsOnce(a, b[j]);
    }
  }

  lemma {:induction false} WantedOnce(db: Database, cutoff: int, leaseExpiry: int, locked: set<nat>, n: nat)
    ensures Distinct(WantedBelow(db, cutoff, leaseExpiry, locked, n))
  {
    if n == 0 {
    } else {
      WantedOnce(db, cutoff, leaseExpiry, locked, n - 1);
      assert n - 1 !in WantedBelow(db, cutoff, leaseExpiry, locked, n - 1);
    }
  }

  /** All wanted rows, the oldest first. */
  function AllWanted(db: Database, cutoff: int, leaseExpiry: int, locked: set<nat>): seq<nat> {
    Sorted(WantedBelow(db, cutoff, leaseExpiry, locked, |db.executions|), (a, b) => Older(db, a, b))
  }

  lemma AllWantedFits(db: Database, cutoff: int, leaseExpiry: int, locked: set<nat>)
    ensures
      var all := AllWanted(db, cutoff, leaseExpiry, locked);
      && Distinct(all)
      && (forall e: nat :: e in all <==> Wanted(db, cutoff, leaseExpiry, locked, e))
      && (forall i, j | 0 <= i < j < |all| :: CreatedAt(db, all[i]) <= CreatedAt(db, all[j]))
  {
    var wanted := WantedBelow(db, cutoff, leaseExpiry, locked, |db.executions|);
    var older := (a, b) => Older(db, a, b);
    var all := Sorted(wanted, older);
    SortedIsSorted(wanted, older);
    WantedOnce(db, cutoff, leaseExpiry, locked, |db.executions|);
    DistinctPermutes(wanted, all);
    forall e: nat
      ensures e in all <==> Wanted(db, cutoff, leaseExpiry, locked, e)
    {
      assert e in all <==> e in multiset(all);
      assert e in wanted <==> e in multiset(wanted);
    }
    forall i, j | 0 <= i < j < |all|
      ensures CreatedAt(db, all[i]) <= CreatedAt(db, all[j])
    {
      assert !older(all[j], all[i]);
    }
  }

  /** Rows created at the same time come in any order from the database; here, in the order of
      the table. */
  function LeaseQuery(db: Database, cutoff: int, leaseExpiry: int, locked: set<nat>, limit: nat): seq<nat> {
    var all := AllWanted(db, cutoff, leaseExpiry, locked);
    if |all| <= limit then all else all[..limit]
  }

  /** What a lease query returns is one of the lists the step system lets a reconciler lease; it is
      within the limit, and leaves a wanted row out only for rows at least as old. */
  lemma QueryTakesTheOldest(db: Database, cutoff: int, leaseExpiry: int, locked: set<nat>, limit: nat)
    ensures
      var rows := LeaseQuery(db, cutoff, leaseExpiry, locked, limit);
      && Saga.Leasable(db, rows, cutoff, leaseExpiry)
      && |rows| <= limit
      && (forall i, j | 0 <= i < j < |rows| :: CreatedAt(db, rows[i]) <= CreatedAt(db, rows[j]))
      && (forall e: nat | Wanted(db, cutoff, leaseExpiry, locked, e) && e !in rows ::
            |rows| == limit && forall r | r in rows :: CreatedAt(db, r) <= CreatedAt(db, e))
  {
    AllWantedFits(db, cutoff, leaseExpiry, locked);
    var all, rows := AllWanted(db, cutoff, leaseExpiry, locked), LeaseQuery(db, cutoff, leaseExpiry, locked, limit);
    assert forall i | 0 <= i < |rows| :: rows[i] == all[i] && rows[i] in all;
    forall e: nat, r: nat | Wanted(db, cutoff, leaseExpiry, locked, e) && e !in rows && r in rows
      ensures CreatedAt(db, r) <= CreatedAt(db, e)
    {
      assert e in all;
      var j :| 0 <= j < |all| && all[j] == e;
      var i :| 0 <= i < |rows| && rows[i] == r;
      assert j < |rows| ==> e in rows;
    }
  }

  /** An execution a query may lease: stored with its proposal, unlocked, still EXECUTING or UNCERTAIN,
      old enough, and without a lease that still runs. */
  predicate Free(db: Database, cutoff: int, leaseExpiry: int, locked: set<nat>, e: nat) {
    && e < |db.executions| && e !in locked
    && var row := db.executions[e];
    && row.proposalId < |db.proposals|
    && (row.state == Executing || row.state == Uncertain)
    && row.createdAt <= cutoff
    && (row.leasedAt == None || row.leasedAt.value < leaseExpiry)
  }

  /** A query returns free executions only, each once, no younger than any it leaves out, and leaves
      one out only at its limit. */
  lemma QueryExactly(db: Database, cutoff: int, leaseExpiry: int, locked: set<nat>, limit: nat)
    ensures
      var rows := LeaseQuery(db, cutoff, leaseExpiry, locked, limit);
      && (forall i, j | 0 <= i < j < |rows| :: rows[i] != rows[j])
      && (forall e | e in rows :: Free(db, cutoff, leaseExpiry, locked, e))
      && |rows| <= limit
      && (forall e: nat, r: nat | Free(db, cutoff, leaseExpiry, locked, e) && e !in rows && r in rows ::
            |rows| == limit && db.executions[r].createdAt <= db.executions[e].createdAt)
      && (forall e: nat | Free(db, cutoff, leaseExpiry, locked, e) && e !in rows :: |rows| == limit)
  {
    QueryTakesTheOldest(db, cutoff, leaseExpiry, locked, limit);
    AllWantedFits(db, cutoff, leaseExpiry, locked);
    var all, rows := AllWanted(db, cutoff, leaseExpiry, locked), LeaseQuery(db, cutoff, leaseExpiry, locked, limit);
    assert forall e | e in rows :: e in all;
    forall e: nat
      ensures Free(db, cutoff, leaseExpiry, locked, e) <==> Wanted(db, cutoff, leaseExpiry, locked, e)
    {
    }
  }

  /** A lease excludes: a later query, by any worker, for which the lease has not run out returns none
      of the leased rows. */
  lemma LeaseExcludes(db: Database, rows: seq<nat>, worker: string, now: int,
                      cutoff: int, leaseExpiry: int, locked: set<nat>, limit: nat)
    requires forall e | e in rows :: e < |db.executions|
    requires leaseExpiry <= now
    ensures forall e | e in rows ::
      e !in LeaseQuery(LeaseRows(db, rows, worker, now), cutoff, leaseExpiry, locked, limit)
  {
    var leased := LeaseRows(db, rows, worker, now);
    AllWantedFits(leased, cutoff, leaseExpiry, locked);
    forall e | e in rows
      ensures e !in LeaseQuery(leased, cutoff, leaseExpiry, locked, limit)
    {
      LeaseWritten(db, rows, worker, now, e);
      assert e !in AllWanted(leased, cutoff, leaseExpiry, locked);
    }
  }

  lemma {:induction false} LeaseWritten(db: Database, rows: seq<nat>, worker: string, now: int, e: nat)
    requires (forall r | r in rows :: r < |db.executions|) && e in rows
    ensures LeaseRows(db, rows, worker, now).executions[e].leasedAt == Some(now)
    decreases |rows|
  {
    var last := |rows| - 1;
    assert rows == rows[..last] + [rows[last]];
    assert forall r | r in rows[..last] :: r in rows;
    if e != rows[last] { LeaseWritten(db, rows[..last], worker, now, e); }
  }

  /** The whole transaction: the rows found with their leases written, and a claim for each. */
  function LeaseTx(db: Database, cutoff: int, leaseExpiry: int, locked: set<nat>, limit: nat, worker: string, now: int)
    : (leased: (Database, seq<ReconciliationClaim>))
    ensures |leased.1| <= limit
  {
    var rows := LeaseQuery(db, cutoff, leaseExpiry, locked, limit);
    QueryTakesTheOldest(db, cutoff, leaseExpiry, locked, limit);
    (LeaseRows(db, rows, worker, now), Saga.ClaimsOf(db, rows))
  }
}
