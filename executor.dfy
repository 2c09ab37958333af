/**
 * The script executor: one-shot evaluation, and continuous scripts that get
 * a fresh id, a result stream, a `sendResult` bridge, a page evaluation
 * whose template embeds the rewritten text, and a registry entry whose cleanup
 * sweeps the page and destroys the stream.
 *
 * `exposeFunction` and `evaluateInPage` are calls into the browser; each
 * is given the way it settles as a parameter, and every page evaluation is
 * logged as a `PageCall`.
 */
module Executor {
  import opened Base
  import opened Channel
  import opened Registry
  import opened ScriptRewrite

  /**
   * Every id `executeContinuous` generates from base-36 random digits keeps
   * the rewrite reversible: removing the inserted assignments from the
   * host-side result of `modifyScript` gives back the caller's script.
   */
  lemma LaunchedScriptRoundTrip(script: seq<char>, now: nat, fraction: seq<char>)
    requires AllBase36(fraction)
    ensures RestoreScript(ModifyScript(script, GenerateScriptId(now, fraction)), GenerateScriptId(now, fraction)) == script
  {
    ScriptIdCharacters(now, fraction);
    ModifyScriptRoundTrip(script, GenerateScriptId(now, fraction));
  }

  /** What a page evaluation was asked to do. */
  datatype PageCall =
    | Run(script: seq<char>)                       // `execute`: the caller's text as is
    | Launch(scriptId: ScriptId, modified: seq<char>) // `setupScriptExecution`: the host-side rewrite spliced into its page template
    | Sweep(scriptId: ScriptId)                    // `cleanupScript`: call `scriptCleanup_<id>` if present

  /** The `sendResult` function exposed for one continuous script. */
  datatype Bridge = Bridge(scriptId: ScriptId, stream: Stream)

  /** What `executeContinuous` hands back. */
  datatype Launched = Launched(stream: Stream, scriptId: ScriptId)

  /** A call of the exposed bridge with `data`: one record tagged with the bridge's id. */
  method SendResult(b: Bridge, data: seq<char>)
    modifies b.stream
    ensures b.stream.items ==
      if old(b.stream.destroyed) then old(b.stream.items) else old(b.stream.items) + [Record(data, b.scriptId)]
    ensures b.stream.destroyed == old(b.stream.destroyed)
    ensures b.stream.endListeners == old(b.stream.endListeners)
    ensures b.stream.closeListeners == old(b.stream.closeListeners)
  {
    b.stream.Write(Record(data, b.scriptId));
  }

  class ScriptExecutor {
    /** The shared registry. */
    const manager: ScriptManager
    /** Every `evaluateInPage` call, in order. */
    var pageCalls: seq<PageCall>
    /** Every bridge exposed, in order. */
    var bridges: seq<Bridge>

    /** Every registered entry is this executor's: its cleanup is the wrapper for its own id. */
    ghost predicate Valid()
      reads this, manager
    {
      manager.Valid() &&
      forall k :: k in manager.activeScripts ==> manager.activeScripts[k].cleanup == Some(Cleanup(k))
    }

    constructor (registry: ScriptManager)
      requires registry.Valid() && registry.activeScripts == map[]
      ensures Valid() && manager == registry
      ensures pageCalls == [] && bridges == []
    {
      manager := registry;
      pageCalls := [];
      bridges := [];
    }

    /** `execute`: evaluates the script as given and answers what the page answered. */
    method Execute(script: seq<char>, pageResult: Result<seq<char>>) returns (r: Result<seq<char>>)
      modifies this`pageCalls
      ensures r == pageResult
      ensures pageCalls == old(pageCalls) + [Run(script)]
    {
      pageCalls := pageCalls + [Run(script)];
      r := pageResult;
    }

    /**
     * `registerScript`: stores `{stream, cleanup}` under `id`, the cleanup
     * being the wrapper for `id`, and makes the stream's 'end' and 'close'
     * events stop `id`.
     */
    method RegisterScript(id: ScriptId, stream: Stream)
      requires Valid()
      modifies manager, stream
      ensures Valid()
      ensures manager.activeScripts == old(manager.activeScripts)[id := Entry(stream, Some(Cleanup(id)))]
      ensures manager.order == if id in old(manager.activeScripts) then old(manager.order) else old(manager.order) + [id]
      ensures manager.cleanupCalls == old(manager.cleanupCalls)
      ensures stream.endListeners == old(stream.endListeners) + [id]
      ensures stream.closeListeners == old(stream.closeListeners) + [id]
      ensures stream.items == old(stream.items) && stream.destroyed == old(stream.destroyed)
    {
      var _ := manager.RegisterScript(id, Entry(stream, Some(Cleanup(id))));
      stream.StopOnEndAndClose(id);
    }

    /**
     * `setupScriptExecution`: exposes the bridge, evaluates the page template
     * holding the rewritten script, and registers; the first failing call ends it with that call's
     * error, so registration happens only after both succeeded.
     */
    method SetupScriptExecution(id: ScriptId, script: seq<char>, stream: Stream, exposed: Outcome, evaluated: Outcome)
      returns (r: Outcome)
      requires Valid()
      modifies this`pageCalls, this`bridges, manager, stream
      ensures Valid()
      ensures r == if exposed.Fail? then exposed else evaluated
      ensures bridges == old(bridges) + (if exposed.Pass? then [Bridge(id, stream)] else [])
      ensures pageCalls == old(pageCalls) + (if exposed.Pass? then [Launch(id, ModifyScript(script, id))] else [])
      ensures manager.activeScripts ==
        if r.Pass? then old(manager.activeScripts)[id := Entry(stream, Some(Cleanup(id)))] else old(manager.activeScripts)
      ensures manager.order == if r.Fail? || id in old(manager.activeScripts) then old(manager.order) else old(manager.order) + [id]
      ensures manager.cleanupCalls == old(manager.cleanupCalls)
      ensures stream.endListeners == old(stream.endListeners) + (if r.Pass? then [id] else [])
      ensures stream.closeListeners == old(stream.closeListeners) + (if r.Pass? then [id] else [])
      ensures stream.items == old(stream.items) && stream.destroyed == old(stream.destroyed)
    {
      if exposed.Fail? {
        return exposed;
      }
      bridges := bridges + [Bridge(id, stream)];
      pageCalls := pageCalls + [Launch(id, ModifyScript(script, id))];
      if evaluated.Fail? {
        return evaluated;
      }
      RegisterScript(id, stream);
      r := Pass;
    }

    /**
     * `executeContinuous`: the id comes from the clock reading `now` and the
     * random digits `fraction`. On success the new, open stream and the id
     * are returned; on failure the stream is destroyed, the error passed on
     * and nothing registered.
     */
    method ExecuteContinuous(script: seq<char>, now: nat, fraction: seq<char>, exposed: Outcome, evaluated: Outcome)
      returns (r: Result<Launched>, ghost stream: Stream)
      requires Valid()
      modifies this`pageCalls, this`bridges, manager
      ensures Valid()
      ensures fresh(stream) && stream.items == []
      ensures r.Success? <==> exposed.Pass? && evaluated.Pass?
      ensures r.Success? ==> r.value == Launched(stream, GenerateScriptId(now, fraction)) && !stream.destroyed
      ensures r.Success? ==> (manager.activeScripts ==
        old(manager.activeScripts)[GenerateScriptId(now, fraction) := Entry(stream, Some(Cleanup(GenerateScriptId(now, fraction))))])
      ensures r.Success? ==> (manager.order == if GenerateScriptId(now, fraction) in old(manager.activeScripts)
        then old(manager.order) else old(manager.order) + [GenerateScriptId(now, fraction)])
      ensures r.Success? ==>
        stream.endListeners == [GenerateScriptId(now, fraction)] && stream.closeListeners == [GenerateScriptId(now, fraction)]
      ensures r.Failure? ==> (stream.destroyed
        && r.error == (if exposed.Fail? then exposed.error else evaluated.error)
        && manager.activeScripts == old(manager.activeScripts) && manager.order == old(manager.order))
      ensures r.Failure? ==> stream.endListeners == [] && stream.closeListeners == []
      ensures manager.cleanupCalls == old(manager.cleanupCalls)
      ensures bridges == old(bridges) + (if exposed.Pass? then [Bridge(GenerateScriptId(now, fraction), stream)] else [])
      ensures pageCalls == old(pageCalls) +
        (if exposed.Pass? then [Launch(GenerateScriptId(now, fraction), ModifyScript(script, GenerateScriptId(now, fraction)))] else [])
    {
      var id := GenerateScriptId(now, fraction);
      var s := new Stream();
      stream := s;
      var setup := SetupScriptExecution(id, script, s, exposed, evaluated);
      if setup.Fail? {
        s.Destroy();
        return Failure(setup.error), stream;
      }
      r := Success(Launched(s, id));
    }

    /** `cleanupScript`: asks the page to run `scriptCleanup_<id>` if it exists. */
    method CleanupScript(id: ScriptId, pageResult: Outcome) returns (r: Outcome)
      modifies this`pageCalls
      ensures r == pageResult
      ensures pageCalls == old(pageCalls) + [Sweep(id)]
    {
      pageCalls := pageCalls + [Sweep(id)];
      r := pageResult;
    }

    /**
     * The cleanup stored with each entry: sweep the page, then destroy the
     * stream; a failing sweep is logged and swallowed, leaving the stream
     * open. It never rejects.
     */
    method RunCleanup(id: ScriptId, stream: Stream, pageResult: Outcome) returns (r: Outcome)
      modifies this`pageCalls, stream
      ensures r == Pass
      ensures pageCalls == old(pageCalls) + [Sweep(id)]
      ensures stream.destroyed == (old(stream.destroyed) || pageResult.Pass?)
      ensures stream.items == old(stream.items)
      ensures stream.endListeners == old(stream.endListeners) && stream.closeListeners == old(stream.closeListeners)
    {
      var swept := CleanupScript(id, pageResult);
      if swept.Pass? {
        stream.Destroy();
      }
      r := Pass;
    }

    /** The stream of `id`'s entry, if it has one. */
    function StreamOf(id: ScriptId): set<Stream>
      reads this, manager
    {
      if id in manager.activeScripts then {manager.activeScripts[id].stream} else {}
    }

    /**
     * `stopScript`: the registry's answer, unchanged. Because the wrapper
     * never rejects, a registered id is always removed and answered true;
     * its page is swept and, when the sweep succeeds, its stream destroyed.
     */
    method StopScript(id: ScriptId, pageResult: Outcome) returns (r: Result<bool>)
      requires Valid()
      modifies this`pageCalls, manager, StreamOf(id)
      ensures Valid()
      ensures r == Success(id in old(manager.activeScripts))
      ensures manager.activeScripts == old(manager.activeScripts) - {id}
      ensures manager.cleanupCalls == old(manager.cleanupCalls) + (if id in old(manager.activeScripts) then [id] else [])
      ensures pageCalls == old(pageCalls) + (if id in old(manager.activeScripts) then [Sweep(id)] else [])
      ensures manager.order == if id in old(manager.activeScripts) then Without(old(manager.order), id) else old(manager.order)
      ensures id in old(manager.activeScripts) ==>
        old(manager.activeScripts)[id].stream.destroyed == (old(manager.activeScripts[id].stream.destroyed) || pageResult.Pass?)
      ensures id in old(manager.activeScripts) ==>
        && old(manager.activeScripts)[id].stream.items == old(manager.activeScripts[id].stream.items)
        && old(manager.activeScripts)[id].stream.endListeners == old(manager.activeScripts[id].stream.endListeners)
        && old(manager.activeScripts)[id].stream.closeListeners == old(manager.activeScripts[id].stream.closeListeners)
    {
      if manager.WillClean(id) {
        var stream := manager.activeScripts[id].stream;
        var cleaned := RunCleanup(id, stream, pageResult);
        r := manager.StopScript(id, cleaned);
      } else {
        r := manager.StopScript(id, Pass);
      }
    }
  }

  /**
   * The stream of a running script ends and then closes: both listeners
   * stop the script, the first answers true, the second false, and the
   * page is swept once.
   */
  method EndThenClose(executor: ScriptExecutor, id: ScriptId, pageResult: Outcome)
    returns (onEnd: Result<bool>, onClose: Result<bool>)
    requires executor.Valid() && id in executor.manager.activeScripts
    modifies executor, executor.manager, executor.manager.activeScripts[id].stream
    ensures executor.Valid()
    ensures onEnd == Success(true) && onClose == Success(false)
    ensures executor.pageCalls == old(executor.pageCalls) + [Sweep(id)]
    ensures executor.manager.cleanupCalls == old(executor.manager.cleanupCalls) + [id]
    ensures executor.manager.activeScripts == old(executor.manager.activeScripts) - {id}
  {
    onEnd := executor.StopScript(id, pageResult);
    onClose := executor.StopScript(id, pageResult);
  }
}
