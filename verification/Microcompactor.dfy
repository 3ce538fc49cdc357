/** The microcompactor as an object: it appends to a session's log in a loop and keeps its failure records. */
module MicrocompactorObject {
  import opened Basics
  import opened Microcompact

  /** The harness session, as far as a pass touches it. */
  class SessionLog {
    var log: seq<Event>
    var surface: seq<nat>

    constructor ()
      ensures View() == EMPTY
    {
      log, surface := [], [];
    }

    function View(): Session
      reads this
    {
      Session(log, surface)
    }

    method AppendPrune(node: nat)
      modifies this
      ensures View() == old(View()).(log := old(log) + [Prune(node)])
    {
      log := log + [Prune(node)];
    }

    /** Append a result in place of a surface node. */
    method AppendReplacement(e: Event, node: nat)
      modifies this
      ensures View() == Session(old(log) + [e], Swap(old(surface), node, |old(log)|))
    {
      surface := Swap(surface, node, |log|);
      log := log + [e];
    }
  }

  class Microcompactor {
    const config: Config
    const tools: Tools
    var failures: map<nat, Failures>

    constructor (config: Config, tools: Tools)
      ensures this.config == config && this.tools == tools && failures == map[]
    {
      this.config, this.tools, failures := config, tools, map[];
    }

    /** A session without a record has never failed. */
    function FailuresOf(id: nat): Failures
      reads this
    {
      if id in failures then failures[id] else Failures(0, false, false)
    }

    /** One node of a pass: skip it, or append its price and its placeholder, one right after the other. */
    method CollapseNode(session: SessionLog, node: nat)
      requires node < |session.log| && session.log[node].Result?
      modifies session
      ensures session.View() == Collapse(old(session.View()), node, config, tools)
    {
      hide ReplacementText, IsPlaceholder, PlainText;
      var e := session.log[node];
      if IsPlaceholder(e.content) { return; }
      if tools.crusherStub(PlainText(e.content)) { return; }
      var text := ReplacementText(config, tools, e.callId, e.content);
      session.AppendPrune(node);
      session.AppendReplacement(Result(e.callId, [TextBlock(text)], Some(node)), node);
      assert old(session.log) + [Prune(node)] + [Result(e.callId, [TextBlock(text)], Some(node))]
          == old(session.log) + [Prune(node), Result(e.callId, [TextBlock(text)], Some(node))];
    }

    /** `microcompactSession`; `stopAt` is where, if anywhere, the session rejects an append. */
    method MicrocompactSession(session: SessionLog, stopAt: Option<nat>, priced: bool) returns (stopped: bool, replaced: nat)
      modifies session
      ensures stopped <==> stopAt.Some? && stopAt.value < |Stale(old(session.View()), config)|
      ensures session.View() == if stopped then StoppedPass(old(session.View()), config, tools, stopAt.value, priced)
                                else Pass(old(session.View()), config, tools)
    {
      hide Collapse, ResultsIn;
      var stale := Stale(session.View(), config);
      ghost var before := session.View();
      replaced := 0;
      for i := 0 to |stale|
        invariant session.View() == CollapseAll(before, stale[..i], config, tools)
        invariant stopAt.Some? ==> i <= stopAt.value
      {
        if stopAt == Some(i) {
          if priced { session.AppendPrune(stale[i]); }
          return true, replaced;
        }
        assert stale[..i + 1][..i] == stale[..i];
        assert before.log[stale[i]] == session.log[stale[i]];
        var length := |session.log|;
        CollapseNode(session, stale[i]);
        if |session.log| > length { replaced := replaced + 1; }
      }
      assert stale[..|stale|] == stale;
      return false, replaced;
    }

    /** `autoMicrocompactPass`: nothing while paused or aborted; failures are counted, the last allowed one pauses. */
    method AutoMicrocompactPass(id: nat, session: SessionLog, aborted: bool, stopAt: Option<nat>, priced: bool, failureCap: nat)
      returns (notice: bool)
      modifies this, session
      ensures var fails := stopAt.Some? && stopAt.value < |Stale(old(session.View()), config)|;
        var r := AutoPass(old(FailuresOf(id)), aborted, fails, failureCap);
        && FailuresOf(id) == r.state && notice == r.notice
        && (!r.attempted ==> session.View() == old(session.View()))
        && (r.attempted && !fails ==> session.View() == Pass(old(session.View()), config, tools))
      ensures forall other :: other != id ==> FailuresOf(other) == old(FailuresOf(other))
    {
      hide Pass, StoppedPass, Stale;
      var state := FailuresOf(id);
      if state.paused || aborted { return false; }
      var stopped, replaced := MicrocompactSession(session, stopAt, priced);
      if !stopped {
        failures := failures[id := Failures(0, false, false)];
        return false;
      }
      var entry := state.(count := state.count + 1);
      if entry.count >= failureCap && !entry.noticed {
        failures := failures[id := Failures(entry.count, true, true)];
        return true;
      }
      failures := failures[id := entry];
      return false;
    }
  }
}
