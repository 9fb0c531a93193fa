/** The whole chain of one investigation (src/quellgeist/orchestrator/investigate.py): from what
    the tools show the loop, over what it cites, to what the store records and what is published. */
module Chain {
  import opened Wrappers
  import opened Evidence
  import opened Store
  import Tools
  import Loop
  import Inv = Investigation
  import Protocol
  import ProtocolReach

  /** The loop of an investigation: its provider, its own environment and the operator's hint. */
  datatype Investigator = Investigator(provider: Loop.Provider, env: Loop.Env, hint: Option<string>)
  {
    function Result(): Option<Loop.LoopResult> {
      Loop.RunFrom(provider, env, hint)
    }

    /** It works with the incident's tools, over signals that the tools can read and that carry
        no stray handle to cite. */
    ghost predicate Over(sig: Signals) {
      && Tools.Readable(sig) && Tools.NoCitableStray(sig)
      && exists maxRows, maxPoints :: env.tools == Tools.IncidentTools(sig, maxRows, maxPoints)
    }
  }

  /** What the investigation takes for its diagnosis is what the loop returned. */
  ghost predicate Concludes(env: Inv.Env, agent: Investigator) {
    env.concludes == if agent.Result().Some? then Some(agent.Result().value.diagnosis) else None
  }

  lemma ToolsShowTheTruth(agent: Investigator, sig: Signals)
    requires agent.Over(sig) && agent.Result().Some?
    ensures Loop.Covers(agent.Result().value, sig)
  {
    var maxRows, maxPoints :| agent.env.tools == Tools.IncidentTools(sig, maxRows, maxPoints);
    Loop.NoCitableStrayCovers(agent.provider, agent.env, agent.hint, sig, maxRows, maxPoints);
  }

  /** Whatever the model answers and whichever calls raise: the run row that is written accuses
      the diagnosis of nothing that a tool has shown, and what it says was fabricated the loop
      had cited without ever seeing it. */
  lemma RecordedWasUnseen(env: Inv.Env, agent: Investigator, id: IncidentId, db: Db, end: Db)
    requires id in db.incidents && env.run !in db.runs && env.run !in db.diagnoses
    requires agent.Over(db.Reads(id)) && Concludes(env, agent)
    requires end == Inv.Finish(env, id, Inv.SetRunning, db).1 && env.run in end.runs
    ensures var row := end.runs[env.run];
      row.outcome != RunFailed ==>
        && agent.Result().Some?
        && row.fabricated.Checked? && row.fabricated.handles !! agent.Result().value.trace.seen
        && row.fabricated.handles <= agent.Result().value.CitedButUnseen()
  {
    Inv.InvestigationLeaves(env, id, db, end);
    if agent.Result().Some? {
      ToolsShowTheTruth(agent, db.Reads(id));
    }
  }

  /** And a diagnosis that cites only what its tools showed it can go all the way: some run of the
      service delivers its incident, investigates, approves and publishes its verified form. */
  lemma SeenCanBePublished(id: IncidentId, source: Dir, env: Inv.Env, agent: Investigator, verified: Diagnosis,
    maxsize: nat, workers: nat)
    returns (run: seq<Protocol.State>)
    requires maxsize > 0 && workers > 0
    requires agent.Over(source.signals) && Concludes(env, agent) && agent.Result().Some?
    requires agent.Result().value.CitedButUnseen() == {}
    requires ProtocolReach.Smooth(env, agent.Result().value.diagnosis, source.signals, verified)
    ensures Protocol.IsRun(run) && run[|run| - 1].w.db.published == [Publication(id, env.run, verified)]
  {
    ToolsShowTheTruth(agent, source.signals);
    var d: Diagnosis := agent.Result().value.diagnosis;
    run := ProtocolReach.CleanDiagnosisCanBePublished(id, source, env, d, verified, maxsize, workers);
  }
}
