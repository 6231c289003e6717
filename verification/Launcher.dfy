/** The live sniffer's launcher: its registry of running pipelines and its writes to the session table. */
module Launcher {
  import opened Wrappers
  import opened Contexts

  class Launcher {
    var sessions: map<string, Context>
    var statuses: map<string, string>

    constructor ()
      ensures sessions == map[] && statuses == map[] && Valid()
    {
      sessions, statuses := map[], map[];
    }

    /** Every registered session has its own context. */
    ghost predicate Valid()
      reads this
    {
      forall a, b :: a in sessions && b in sessions && sessions[a] == sessions[b] ==> a == b
    }

    /** UpdateSession: overwrites the status of an existing session unless the context is done. */
    method UpdateSession(done: bool, id: string, status: string)
      modifies this`statuses
      ensures statuses == if !done && id in old(statuses) then old(statuses)[id := status] else old(statuses)
    {
      if !done && id in statuses {
        statuses := statuses[id := status];
      }
    }

    /** StopPipeline on a text that denotes the session `parsed`, if any: cancels and forgets the pipeline registered
        under that very text, if there is one, and writes "finished" on the denoted session with the caller's context
        in either case; a text that denotes none changes nothing. */
    method StopPipeline(done: bool, text: string, parsed: Option<string>) returns (ok: bool)
      requires Valid()
      modifies this, sessions.Values
      ensures Valid() && ok == parsed.Some?
      ensures sessions == if ok then old(sessions) - {text} else old(sessions)
      ensures ok && text in old(sessions) ==> old(sessions)[text].cancelled
      ensures forall k :: k in old(sessions) && (k != text || !ok) ==>
          old(sessions)[k].cancelled == old(sessions[k].cancelled)
      ensures statuses == if ok && !done && parsed.value in old(statuses)
          then old(statuses)[parsed.value := "finished"] else old(statuses)
    {
      if parsed.None? {
        return false;
      }
      if text in sessions {
        sessions[text].cancelled := true;
        sessions := sessions - {text};
      }
      UpdateSession(done, parsed.value, "finished");
      return true;
    }

    /** StopAll without interference: every registered pipeline is cancelled, the registry is left empty, and exactly
        the registered sessions are marked finished. A registered id denotes itself. */
    method StopAll(done: bool)
      requires Valid()
      modifies this, sessions.Values
      ensures Valid() && sessions == map[]
      ensures forall id :: id in old(sessions) ==> old(sessions)[id].cancelled
      ensures statuses.Keys == old(statuses).Keys
      ensures forall id :: id in statuses ==>
        statuses[id] == if !done && id in old(sessions) then "finished" else old(statuses)[id]
    {
      var ids := sessions.Keys;
      while ids != {}
        invariant Valid() && ids <= old(sessions).Keys
        invariant sessions.Keys == ids && forall id :: id in sessions ==> sessions[id] == old(sessions)[id]
        invariant forall id :: id in old(sessions) && id !in ids ==> old(sessions)[id].cancelled
        invariant statuses.Keys == old(statuses).Keys
        invariant forall id :: id in statuses ==>
          statuses[id] == if !done && id in old(sessions) && id !in ids then "finished" else old(statuses)[id]
        decreases ids
      {
        var id :| id in ids;
        ids := ids - {id};
        var _ := StopPipeline(done, id, Some(id));
      }
    }
  }
}
