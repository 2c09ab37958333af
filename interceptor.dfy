/**
 * The page-side resource interceptor: it replaces the page's `setInterval`
 * and `MutationObserver` with versions that record every interval handle and
 * every observer under the script id that is current when they are created,
 * sweeps one id's resources on `cleanupScript(id)`, and uninstalls itself
 * once nothing is tracked any more.
 *
 * The page's globals are the fields of `Page`; the effects of the native
 * `clearInterval` and `observer.disconnect()` are the ghost sets `cleared`
 * and `disconnected`.
 */
module Interceptor {
  import opened Base

  /** An interval handle returned by the native `setInterval`. */
  type Timer = nat

  /** The identity of an observer built by the native `MutationObserver`. */
  type Observer = nat

  /** What a page global holds: the browser's own function or the tracking override. */
  datatype Primitive = Native | Tracking

  /** The resources recorded for `id`, or none (`map.get(id) || new Set()`). */
  function Tracked<H>(book: map<ScriptId, set<H>>, id: ScriptId): set<H> {
    if id in book then book[id] else {}
  }

  /** `if (scriptId)`: an absent id and the empty string are both falsy. */
  predicate Attributable(current: Option<ScriptId>) {
    current.Some? && current.value != ""
  }

  /**
   * The bookkeeping of both overrides: add the new resource to the current
   * id's set, creating the set if needed; with no usable current id, nothing
   * is recorded.
   */
  function Attribute<H>(book: map<ScriptId, set<H>>, current: Option<ScriptId>, h: H): (r: map<ScriptId, set<H>>)
    ensures Attributable(current) ==>
      r.Keys == book.Keys + {current.value} && r[current.value] == Tracked(book, current.value) + {h}
    ensures forall k :: k in book && !(Attributable(current) && k == current.value) ==> k in r && r[k] == book[k]
    ensures !Attributable(current) ==> r == book
  {
    if Attributable(current) then book[current.value := Tracked(book, current.value) + {h}] else book
  }

  /** The sets of `book` belong to distinct ids and never share a resource. */
  ghost predicate Disjoint<H>(book: map<ScriptId, set<H>>) {
    forall a, b :: a in book && b in book && a != b ==> book[a] !! book[b]
  }

  /** Every set of `book` holds only resources from `issued`. */
  ghost predicate Within<H>(book: map<ScriptId, set<H>>, issued: set<H>) {
    forall a :: a in book ==> book[a] <= issued
  }

  /** Forgetting one id keeps the others' sets disjoint, and none of them shares a resource with the forgotten set. */
  lemma RemoveKeeps<H>(book: map<ScriptId, set<H>>, issued: set<H>, id: ScriptId)
    requires Disjoint(book) && Within(book, issued)
    ensures Disjoint(book - {id}) && Within(book - {id}, issued)
    ensures forall other :: other != id && other in book ==> book[other] !! Tracked(book, id)
  {
  }

  /** Message of the `TypeError` thrown when the bookkeeping maps no longer exist. */
  const MissingMaps: Message := "TypeError: Cannot read properties of undefined (reading 'get')"

  /** Message of the `TypeError` thrown when the file was never evaluated, so `cleanupScript` does not exist. */
  const NotAFunction: Message := "TypeError: cleanupScript is not a function"

  class Page {
    /** `window.setInterval`. */
    var setIntervalFn: Primitive
    /** `window.MutationObserver`. */
    var observerCtor: Primitive
    /** The bookkeeping globals `__originalSetInterval`, `__originalMutationObserver`, `__activeIntervals`, `__activeObservers` exist. */
    var installed: bool
    /** `window.cleanupScript` has been assigned; nothing ever deletes it. */
    var defined: bool
    /** `window.__originalSetInterval` while installed. */
    var savedSetInterval: Primitive
    /** `window.__originalMutationObserver` while installed. */
    var savedObserverCtor: Primitive
    /** `window.__currentScriptId`. */
    var currentId: Option<ScriptId>
    /** `window.__activeIntervals`. */
    var intervals: map<ScriptId, set<Timer>>
    /** `window.__activeObservers`. */
    var observers: map<ScriptId, set<Observer>>
    /** Ids whose `sendResult_<id>` binding is present on the window. */
    var bridges: set<ScriptId>
    /** Every handle the native `setInterval` has returned. */
    ghost var timersIssued: set<Timer>
    /** Every observer the native constructor has built. */
    ghost var observersIssued: set<Observer>
    /** Handles passed to `clearInterval`. */
    ghost var cleared: set<Timer>
    /** Observers whose `disconnect()` has been called. */
    ghost var disconnected: set<Observer>

    /**
     * Installed: both globals are overrides and the saved originals are the
     * browser's own. Not installed: the browser's own functions are in place
     * and nothing is tracked. In both: no resource is recorded twice.
     */
    ghost predicate Valid()
      reads this
    {
      && (installed ==> defined)
      && (installed ==> setIntervalFn == Tracking && observerCtor == Tracking
                        && savedSetInterval == Native && savedObserverCtor == Native)
      && (!installed ==> setIntervalFn == Native && observerCtor == Native
                         && intervals == map[] && observers == map[])
      && Disjoint(intervals) && Within(intervals, timersIssued)
      && Disjoint(observers) && Within(observers, observersIssued)
    }

    /** A page that has never evaluated the interceptor. */
    constructor ()
      ensures Valid() && !installed && !defined
      ensures currentId == None && bridges == {}
      ensures timersIssued == {} && observersIssued == {} && cleared == {} && disconnected == {}
    {
      setIntervalFn, observerCtor := Native, Native;
      installed, defined := false, false;
      savedSetInterval, savedObserverCtor := Native, Native;
      currentId := None;
      intervals, observers := map[], map[];
      bridges := {};
      timersIssued, observersIssued := {}, {};
      cleared, disconnected := {}, {};
    }

    /**
     * Evaluating the file: saves whatever `setInterval` and
     * `MutationObserver` hold now, starts empty bookkeeping maps and installs
     * the overrides. Nothing checks whether it is installed already.
     */
    method Install()
      modifies this
      ensures installed && defined && setIntervalFn == Tracking && observerCtor == Tracking
      ensures savedSetInterval == old(setIntervalFn) && savedObserverCtor == old(observerCtor)
      ensures intervals == map[] && observers == map[]
      ensures currentId == old(currentId) && bridges == old(bridges)
      ensures timersIssued == old(timersIssued) && observersIssued == old(observersIssued)
      ensures cleared == old(cleared) && disconnected == old(disconnected)
      ensures old(Valid()) && !old(installed) ==> Valid()
    {
      savedSetInterval := setIntervalFn;
      savedObserverCtor := observerCtor;
      intervals := map[];
      observers := map[];
      installed := true;
      defined := true;
      setIntervalFn := Tracking;
      observerCtor := Tracking;
    }

    /** Installation guarded by the bookkeeping's presence: a second call changes nothing. */
    method InstallOnce()
      requires Valid()
      modifies this
      ensures Valid() && installed && defined
      ensures old(installed) ==>
        intervals == old(intervals) && observers == old(observers)
        && savedSetInterval == old(savedSetInterval) && savedObserverCtor == old(savedObserverCtor)
      ensures !old(installed) ==> intervals == map[] && observers == map[]
      ensures currentId == old(currentId) && bridges == old(bridges)
      ensures timersIssued == old(timersIssued) && observersIssued == old(observersIssued)
      ensures cleared == old(cleared) && disconnected == old(disconnected)
    {
      if !installed {
        Install();
      }
    }

    /** `window.__currentScriptId = id` (or its deletion), done by whoever launches a script. */
    method SetCurrentScript(id: Option<ScriptId>)
      requires Valid()
      modifies this`currentId
      ensures Valid() && currentId == id
    {
      currentId := id;
    }

    /** The `sendResult_<id>` binding appears on the window. */
    method ExposeBridge(id: ScriptId)
      requires Valid()
      modifies this`bridges
      ensures Valid() && bridges == old(bridges) + {id}
    {
      bridges := bridges + {id};
    }

    /**
     * A call of `window.setInterval`; `timer` is the handle the native
     * primitive returns. The override records it under the current id and
     * returns it unchanged; the native function records nothing.
     */
    method SetInterval(timer: Timer) returns (r: Timer)
      requires Valid()
      requires timer !in timersIssued
      modifies this`intervals, this`timersIssued
      ensures Valid()
      ensures r == timer
      ensures timersIssued == old(timersIssued) + {timer}
      ensures intervals == if installed then Attribute(old(intervals), currentId, timer) else old(intervals)
    {
      timersIssued := timersIssued + {timer};
      if setIntervalFn == Tracking {
        intervals := Attribute(intervals, currentId, timer);
      }
      r := timer;
    }

    /**
     * A `new MutationObserver(callback)`; `observer` is the object the native
     * constructor builds. The override records it under the current id and
     * returns that same object.
     */
    method NewMutationObserver(observer: Observer) returns (r: Observer)
      requires Valid()
      requires observer !in observersIssued
      modifies this`observers, this`observersIssued
      ensures Valid()
      ensures r == observer
      ensures observersIssued == old(observersIssued) + {observer}
      ensures observers == if installed then Attribute(old(observers), currentId, observer) else old(observers)
    {
      observersIssued := observersIssued + {observer};
      if observerCtor == Tracking {
        observers := Attribute(observers, currentId, observer);
      }
      r := observer;
    }

    /** The `clearInterval` loop of `cleanupScript`, then `__activeIntervals.delete(id)`. */
    method ClearIntervals(id: ScriptId)
      requires Valid() && installed
      modifies this`cleared, this`intervals
      ensures Valid()
      ensures cleared == old(cleared) + Tracked(old(intervals), id)
      ensures intervals == old(intervals) - {id}
    {
      var timers := Tracked(intervals, id);
      var pending := timers;
      ghost var stopped: set<Timer> := {};
      while pending != {}
        invariant pending <= timers
        invariant stopped == timers - pending
        decreases pending
      {
        var t :| t in pending;
        stopped := stopped + {t};
        pending := pending - {t};
      }
      cleared := cleared + stopped;
      RemoveKeeps(intervals, timersIssued, id);
      intervals := intervals - {id};
    }

    /** The `disconnect` loop of `cleanupScript`, then `__activeObservers.delete(id)`. */
    method DisconnectObservers(id: ScriptId)
      requires Valid() && installed
      modifies this`disconnected, this`observers
      ensures Valid()
      ensures disconnected == old(disconnected) + Tracked(old(observers), id)
      ensures observers == old(observers) - {id}
    {
      var watchers := Tracked(observers, id);
      var left := watchers;
      ghost var quiet: set<Observer> := {};
      while left != {}
        invariant left <= watchers
        invariant quiet == watchers - left
        decreases left
      {
        var o :| o in left;
        quiet := quiet + {o};
        left := left - {o};
      }
      disconnected := disconnected + quiet;
      RemoveKeeps(observers, observersIssued, id);
      observers := observers - {id};
    }

    /** The end of `cleanupScript`: with both maps empty, put the saved originals back and delete the bookkeeping. */
    method RestoreIfIdle()
      requires Valid() && installed
      modifies this`setIntervalFn, this`observerCtor, this`installed, this`intervals, this`observers
      ensures Valid()
      ensures intervals == old(intervals) && observers == old(observers)
      ensures installed == (intervals != map[] || observers != map[])
    {
      if |intervals| == 0 && |observers| == 0 {
        setIntervalFn := savedSetInterval;
        observerCtor := savedObserverCtor;
        installed := false;
        intervals := map[];
        observers := map[];
      }
    }

    /**
     * `cleanupScript(id)`: clears the id's intervals, disconnects its
     * observers, forgets the id, deletes its bridge binding and the current
     * id, and restores the browser's own functions when nothing is tracked
     * any more. Once uninstalled, reading the deleted maps throws; on a page
     * that never evaluated the file, the call itself throws.
     */
    method CleanupScript(id: ScriptId) returns (r: Outcome)
      requires Valid()
      modifies this
      ensures Valid()
      ensures timersIssued == old(timersIssued) && observersIssued == old(observersIssued)
      ensures defined == old(defined)
      ensures !old(installed) ==>
        r == (if old(defined) then Fail(MissingMaps) else Fail(NotAFunction)) && !installed
        && cleared == old(cleared) && disconnected == old(disconnected)
        && currentId == old(currentId) && bridges == old(bridges)
      ensures old(installed) ==>
        && r == Pass
        && cleared == old(cleared) + Tracked(old(intervals), id)
        && disconnected == old(disconnected) + Tracked(old(observers), id)
        && bridges == old(bridges) - {id}
        && currentId == None
        && intervals == old(intervals) - {id}
        && observers == old(observers) - {id}
        && installed == (intervals != map[] || observers != map[])
      ensures forall other :: other != id && other in old(intervals) ==>
        old(intervals)[other] !! (cleared - old(cleared))
      ensures forall other :: other != id && other in old(observers) ==>
        old(observers)[other] !! (disconnected - old(disconnected))
    {
      if !defined {
        return Fail(NotAFunction);
      }
      if !installed {
        return Fail(MissingMaps);
      }
      RemoveKeeps(intervals, timersIssued, id);
      RemoveKeeps(observers, observersIssued, id);
      ClearIntervals(id);
      DisconnectObservers(id);
      bridges := bridges - {id};
      currentId := None;
      RestoreIfIdle();
      r := Pass;
    }
  }

  /**
   * Evaluating the file a second time: the saved "original" is now the
   * override itself, and the interval already recorded for a running script
   * is forgotten without being cleared, so no later cleanup can clear it.
   */
  method ReinstallLosesTimer() returns (page: Page)
    ensures page.savedSetInterval == Tracking
    ensures 1 in page.timersIssued && 1 !in page.cleared
    ensures forall id :: 1 !in Tracked(page.intervals, id)
  {
    page := new Page();
    page.Install();
    page.SetCurrentScript(Some("script_1_a"));
    var t := page.SetInterval(1);
    assert 1 in Tracked(page.intervals, "script_1_a");
    page.Install();
  }

  /** With the guarded installation, the same steps keep the interval tracked. */
  method ReinstallOnceKeepsTimer() returns (page: Page)
    ensures page.Valid() && page.savedSetInterval == Native
    ensures 1 in Tracked(page.intervals, "script_1_a")
  {
    page := new Page();
    page.InstallOnce();
    page.SetCurrentScript(Some("script_1_a"));
    var t := page.SetInterval(1);
    page.InstallOnce();
  }

  /**
   * After the last tracked script is cleaned up, the browser's own
   * `setInterval` is back: a new interval is attributed to nobody.
   */
  method LastCleanupRestores(page: Page, id: ScriptId, timer: Timer)
    requires page.Valid() && page.installed
    requires page.intervals.Keys <= {id} && page.observers.Keys <= {id}
    requires timer !in page.timersIssued
    modifies page
    ensures page.Valid() && !page.installed
    ensures page.setIntervalFn == Native && page.intervals == map[]
  {
    var r := page.CleanupScript(id);
    page.SetCurrentScript(Some(id));
    var t := page.SetInterval(timer);
  }
}
