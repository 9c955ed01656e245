/**
 The submission status store (apps/submission/internal/status/tracker.go).
 */
module Trackers {

  datatype Option<T> = None | Some(value: T)

  datatype Status = Queued | Running | Completed | Failed

  datatype Entry = Entry(submissionID: string, contestantID: string, status: Status, runID: string, score: Option<real>)

  function AfterSet(m: map<string, Entry>, id: string, contestantID: string, status: Status): map<string, Entry> {
    if id in m then
      m[id := m[id].(status := status, contestantID := if contestantID != "" then contestantID else m[id].contestantID)]
    else
      m[id := Entry(id, contestantID, status, "", None)]
  }

  function AfterSetRunID(m: map<string, Entry>, id: string, runID: string): map<string, Entry> {
    if id in m then m[id := m[id].(runID := runID)] else m
  }

  predicate HasRun(m: map<string, Entry>, runID: string) {
    exists id :: id in m && m[id].runID == runID
  }

  /** One of the entries with this run ID changed; none did if there is none. */
  ghost predicate StatusUpdated(m: map<string, Entry>, runID: string, status: Status, m': map<string, Entry>) {
    if HasRun(m, runID) then exists id :: id in m && m[id].runID == runID && m' == m[id := m[id].(status := status)]
    else m' == m
  }

  ghost predicate ScoreUpdated(m: map<string, Entry>, runID: string, score: real, m': map<string, Entry>) {
    if HasRun(m, runID) then exists id :: id in m && m[id].runID == runID && m' == m[id := m[id].(score := Some(score))]
    else m' == m
  }

  class Tracker {
    var entries: map<string, Entry>

    constructor ()
      ensures entries == map[]
    {
      entries := map[];
    }

    method Set(submissionID: string, contestantID: string, status: Status)
      modifies this
      ensures entries == AfterSet(old(entries), submissionID, contestantID, status)
    {
      if submissionID !in entries {
        entries := entries[submissionID := Entry(submissionID, contestantID, status, "", None)];
        return;
      }
      var e := entries[submissionID].(status := status);
      if contestantID != "" {
        e := e.(contestantID := contestantID);
      }
      entries := entries[submissionID := e];
    }

    method SetRunID(submissionID: string, runID: string)
      modifies this
      ensures entries == AfterSetRunID(old(entries), submissionID, runID)
    {
      if submissionID in entries {
        entries := entries[submissionID := entries[submissionID].(runID := runID)];
      }
    }

    /** Returns a copy, so later updates do not reach the caller. */
    method Get(submissionID: string) returns (e: Option<Entry>)
      ensures e == if submissionID in entries then Some(entries[submissionID]) else None
    {
      if submissionID !in entries {
        return None;
      }
      return Some(entries[submissionID]);
    }

    /** The search both updates share, over the map in an arbitrary order. */
    method FindRun(runID: string) returns (id: Option<string>)
      ensures id.Some? ==> id.value in entries && entries[id.value].runID == runID
      ensures id.None? ==> !HasRun(entries, runID)
    {
      var todo := entries.Keys;
      while todo != {}
        invariant todo <= entries.Keys
        invariant forall x :: x in entries && entries[x].runID == runID ==> x in todo
        decreases todo
      {
        var x :| x in todo;
        if entries[x].runID == runID {
          return Some(x);
        }
        todo := todo - {x};
      }
      return None;
    }

    method UpdateByRunID(runID: string, status: Status)
      modifies this
      ensures StatusUpdated(old(entries), runID, status, entries)
    {
      var id := FindRun(runID);
      if id.Some? {
        entries := entries[id.value := entries[id.value].(status := status)];
      }
    }

    method UpdateScoreByRunID(runID: string, score: real)
      modifies this
      ensures ScoreUpdated(old(entries), runID, score, entries)
    {
      var id := FindRun(runID);
      if id.Some? {
        entries := entries[id.value := entries[id.value].(score := Some(score))];
      }
    }
  }
}
