/**
 The two idempotency stores. Saving a result for a scope that has one returns the one it has.
 */
module Idempotency {
  import opened Wrappers

  datatype Scope = Scope(tenantId: string, operation: string, key: string)

  type Results = map<Scope, string>

  function FirstWrite(results: Results, scope: Scope, result: string): Results {
    if scope in results then results else results[scope := result]
  }

  class InMemoryIdempotencyRepository {
    var results: Results

    constructor ()
      ensures results == map[]
    {
      results := map[];
    }

    method Get(scope: Scope) returns (result: Option<string>)
      ensures result == if scope in results then Some(results[scope]) else None
    {
      result := if scope in results then Some(results[scope]) else None;
    }

    method Save(scope: Scope, result: string) returns (stored: string)
      modifies this
      ensures results == FirstWrite(old(results), scope, result)
      ensures scope in results && stored == results[scope]
    {
      var existing := Get(scope);
      if existing.Some? {
        return existing.value;
      }
      results := results[scope := result];
      stored := result;
    }
  }

  /** The SQL store relies on the unique constraint over tenant, operation and key: the insert of a
      second record fails, is rolled back, and the first is read instead. */
  class SqlIdempotencyRepository {
    var records: Results

    constructor ()
      ensures records == map[]
    {
      records := map[];
    }

    method Get(scope: Scope) returns (result: Option<string>)
      ensures result == if scope in records then Some(records[scope]) else None
    {
      result := if scope in records then Some(records[scope]) else None;
    }

    /** Insert and commit, unless the unique constraint refuses. */
    method TryInsert(scope: Scope, result: string) returns (committed: bool)
      modifies this
      ensures records == FirstWrite(old(records), scope, result)
      ensures committed <==> scope !in old(records)
    {
      committed := scope !in records;
      if committed {
        records := records[scope := result];
      }
    }

    /** The error for a conflict without a completed record cannot occur. */
    method Save(scope: Scope, result: string) returns (stored: Option<string>)
      modifies this
      ensures records == FirstWrite(old(records), scope, result)
      ensures scope in records && stored == Some(records[scope])
    {
      var committed := TryInsert(scope, result);
      if committed {
        return Some(result);
      }
      stored := Get(scope);
    }
  }

  /** The table after a sequence of saves. */
  function AfterSaves(results: Results, saves: seq<(Scope, string)>): Results
    decreases |saves|
  {
    if saves == [] then results
    else AfterSaves(FirstWrite(results, saves[0].0, saves[0].1), saves[1..])
  }

  /** Over any sequence of saves, a scope keeps the result it had, or else the first one it was given;
      scopes never saved stay without one. */
  lemma {:induction false} FirstWriteWins(results: Results, saves: seq<(Scope, string)>, scope: Scope)
    ensures var after := AfterSaves(results, saves);
            && (scope in results ==> scope in after && after[scope] == results[scope])
            && (scope !in results && scope in after ==>
                  exists i :: 0 <= i < |saves| && saves[i].0 == scope && saves[i].1 == after[scope]
                              && forall j :: 0 <= j < i ==> saves[j].0 != scope)
            && (scope in after <==> scope in results || exists i :: 0 <= i < |saves| && saves[i].0 == scope)
    decreases |saves|
  {
    if saves == [] {
    } else {
      FirstWriteWins(FirstWrite(results, saves[0].0, saves[0].1), saves[1..], scope);
      var after := AfterSaves(results, saves);
      if scope !in results && scope in after {
        if saves[0].0 != scope {
          var i :| 0 <= i < |saves[1..]| && saves[1..][i].0 == scope && saves[1..][i].1 == after[scope]
                   && forall j :: 0 <= j < i ==> saves[1..][j].0 != scope;
          assert saves[i + 1].0 == scope;
          assert forall j :: 0 <= j < i + 1 ==> saves[j].0 != scope by {
            forall j | 0 <= j < i + 1 ensures saves[j].0 != scope {
              if j > 0 { assert saves[1..][j - 1].0 != scope; }
            }
          }
        }
      } else if scope !in results {
        forall i | 0 <= i < |saves| ensures saves[i].0 != scope {
          assert i == 0 || saves[i] == saves[1..][i - 1];
        }
      }
    }
  }
}
