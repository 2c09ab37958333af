# Script lifecycle of the browser automation service

This project models how the service runs callers' JavaScript inside a browser page. It tracks what those scripts start and tears each script down exactly once. There are three parts.

- **The script registry** (`ScriptManager`, module `Registry`). It is a table from script id to `{stream, cleanup}`, iterated in insertion order like a JavaScript `Map`. Its operations are registering an entry, stopping one script and stopping all of them. A stop awaits the cleanup and only then deletes the entry. The module also holds the id generator: `script_`, then the millisecond clock in decimal, then `_`, then up to nine base-36 random digits.
- **The page-side interceptor** (`overrides.js`, module `Interceptor`). It replaces the page's `setInterval` and `MutationObserver` with versions that record each new interval handle and observer under the current script id. `cleanupScript(id)` clears and disconnects exactly that id's resources. When nothing is tracked any more, the interceptor puts the browser's own functions back and deletes its bookkeeping.
- **The script executor** (`ScriptExecutorService`, modules `ScriptRewrite`, `Channel` and `Executor`). A one-shot script is evaluated as is. A continuous script gets these things:
  - a generated id;
  - a result stream;
  - a `sendResult` bridge that writes `{data, scriptId}` records to that stream;
  - a rewritten text, which puts `window.scriptInterval_<id> = ` in front of every `setInterval(` and `window.scriptObserver_<id> = ` in front of every `new MutationObserver(`. The rewrite is spliced into a page-side template and `eval`ed there; what the page finally runs is described under "## Left out";
  - a registry entry whose cleanup sweeps the page and then destroys the stream.

Browser calls (`exposeFunction`, `evaluateInPage`) are not modelled as code. Each one becomes a parameter saying how the call settles, and page evaluations are logged as `PageCall` values. The same goes for the clock, the random number, the native `setInterval` handle and the native observer. The effects of native `clearInterval` and `disconnect()` are ghost sets.

Modelling choices that follow the code as written:

- The interceptor uninstalls when both bookkeeping maps are empty (`overrides.js:61-64`). It does not count running scripts. A running script that has not yet created a timer or an observer is not counted.
- After uninstalling, `window.cleanupScript` stays defined. Calling it again reads a deleted map and throws. On a page that never evaluated the file, the call throws because `cleanupScript` is not a function. `Interceptor.Page.CleanupScript` returns each `TypeError` as a `Fail` outcome rather than forbidding the call.
- Nothing in the executor writes `window.__currentScriptId` or creates a `sendResult_<id>` binding: it exposes the single name `sendResult`. `Interceptor.Page.SetCurrentScript` and `Interceptor.Page.ExposeBridge` are therefore steps of the environment, not operations of the code. Line 57 of `overrides.js` deletes a binding that the executor never creates.
- `if (scriptId)` is a truthiness test, so an empty-string current id attributes nothing.
- The code has no install guard (see "## Findings").
- The executor is taken to own its registry: it starts empty and every entry is registered through the executor, so each cleanup is the wrapper for its own id (`Executor.ScriptExecutor.Valid`). The code does not enforce this: `ScriptManager.registerScript` is public and the executor's constructor accepts any manager. An entry registered elsewhere, with no cleanup or a rejecting one, would make `Executor.ScriptExecutor.StopScript` answer false or pass a rejection on, as `Registry.ScriptManager.StopScript` states.
- The executor never loads `overrides.js`. Its own page-side cleanup is the `scriptCleanup_<id>` text it evaluates. The interceptor is therefore modelled as a component of its own.
- The rewrite can be undone only under a condition on the id. The round trip "delete every inserted assignment" is false for arbitrary markers: with marker `ab`, pattern `bab` and text `abbbab`, deleting the marker wrongly removes text that was there before. It holds when the pattern's closing `(` occurs in marker-plus-pattern only at the end. For this rewrite, that means the id contains no `(`. Every generated id qualifies: it contains only base-36 characters and underscores (`Registry.ScriptIdCharacters`, `Executor.LaunchedScriptRoundTrip`).

## Model

| member | source | states |
|---|---|---|
| Registry.GenerateScriptId | src/services/scriptManager.js:6-8 | The id is `script_`, the clock reading in decimal, `_`, and the first nine base-36 digits of the random value (fewer if it has fewer). |
| Registry.Decimal | src/services/scriptManager.js:7 | The clock's decimal rendering is non-empty, all digits, canonical (no leading zero unless it is the single digit `0`), and reads back as the same number. |
| Registry.ScriptIdRoundTrip | src/services/scriptManager.js:7 | Parsing a generated id gives back exactly the timestamp and the random suffix it was built from. |
| Registry.ScriptIdCharacters | src/services/scriptManager.js:7 | With base-36 random digits, every character of the id is base-36 or `_`, the id contains no `(`, and its length is at most 8 + the timestamp's digits + 9. |
| Registry.ScriptManager.constructor | src/services/scriptManager.js:2-4 | The registry starts empty. |
| Registry.ScriptManager.RegisterScript | src/services/scriptManager.js:10-13 | Maps the id to exactly the given entry, leaves every other entry alone, keeps Map insertion order (an overwritten key keeps its place), and returns the id. |
| Registry.ScriptManager.StopScript | src/services/scriptManager.js:15-23 | With a cleanup, the cleanup runs once. If it resolves, only this entry is removed and the answer is true. If it rejects, the rejection is passed on and the entry stays. Without an entry or a cleanup, the answer is false and nothing changes. |
| Registry.StopTwice | src/services/scriptManager.js:15-23 | Two stops of a registered id answer true and then false, the cleanup runs exactly once, and only that entry goes. |
| Registry.ScriptManager.StopAllScripts | src/services/scriptManager.js:25-30 | Every key present at the call is stopped in Map order. Cleanups run in that order. Exactly the entries whose cleanup resolved are removed. The remaining keys keep their relative Map order. The answer is the first rejection, if any. |
| Registry.CleanupOrderOnce | src/services/scriptManager.js:25-30 | In a stop-all, each entry's cleanup runs exactly once when it has one, and never otherwise. |
| Registry.StopAllLeavesOnlyInert | src/services/scriptManager.js:25-30 | After a stop-all with no rejections, only entries without a cleanup remain. If every entry has a cleanup, the table ends empty. |
| ScriptRewrite.InsertBefore | src/services/scriptExecutor.js:63-71 | A global replace that puts a marker before each match never shortens the text. An empty marker leaves the text unchanged. |
| ScriptRewrite.InsertBeforeNoMatch | src/services/scriptExecutor.js:62-71 | A global replace of a pattern that does not occur returns the text unchanged. |
| ScriptRewrite.InsertBeforeLength | src/services/scriptExecutor.js:62-71 | Each occurrence of the pattern adds exactly one marker to the length. |
| ScriptRewrite.StripInsertBefore | src/services/scriptExecutor.js:62-71 | For a delimited marker, deleting every marker that precedes the pattern undoes the global replace. |
| ScriptRewrite.InsertBeforeOccurrences | src/services/scriptExecutor.js:62-71 | A replace pass keeps the number of occurrences of its own pattern and of any unrelated pattern with the same closer. |
| ScriptRewrite.MarkersDelimited | src/services/scriptExecutor.js:64-71 | For an id without `(`, both assignments are delimited markers, and `setInterval(` and `new MutationObserver(` are unrelated. |
| ScriptRewrite.ModifyScript | src/services/scriptExecutor.js:62-72 | The two chained replaces never shorten the script. The exact growth, the round trip and the kept calls are the lemmas below. |
| ScriptRewrite.ModifyScriptRoundTrip | src/services/scriptExecutor.js:62-71 | Deleting every inserted `window.scriptObserver_<id> = ` and then every `window.scriptInterval_<id> = ` recovers the caller's script. |
| ScriptRewrite.ModifyScriptKeepsCalls | src/services/scriptExecutor.js:62-71 | The rewritten script has as many `setInterval(` and as many `new MutationObserver(` as the original. |
| ScriptRewrite.ModifyScriptLength | src/services/scriptExecutor.js:62-71 | The rewritten script is longer by one interval assignment per `setInterval(` and one observer assignment per `new MutationObserver(`, and by nothing else. |
| ScriptRewrite.ModifyScriptUnchanged | src/services/scriptExecutor.js:62-71 | The script comes back unchanged if and only if it contains neither call. |
| Executor.LaunchedScriptRoundTrip | src/services/scriptExecutor.js:14-18 | For every id the executor generates, the rewrite of any script can be undone. |
| Channel.Stream.constructor | src/services/scriptExecutor.js:15 | A new `PassThrough` is open, holds no record and has no listener. |
| Channel.Stream.Write | src/services/scriptExecutor.js:29 | A write appends one record to an open stream; a destroyed stream drops it. |
| Channel.Stream.Destroy | src/services/scriptExecutor.js:21 | Destroying closes the stream for good. The write log `items` and the listeners are kept; records not yet read by a consumer are no longer readable, which the model does not track. |
| Channel.Stream.StopOnEndAndClose | src/services/scriptExecutor.js:88-89 | Adds one 'end' listener and one 'close' listener, both stopping the given id. |
| Executor.SendResult | src/services/scriptExecutor.js:28-30 | Each bridge call appends exactly one `{data, scriptId}` record with the bridge's own id, after the earlier ones, unless the stream is destroyed. |
| Executor.ScriptExecutor.constructor | src/services/scriptExecutor.js:4-7 | The executor holds the given registry and has evaluated nothing. |
| Executor.ScriptExecutor.Execute | src/services/scriptExecutor.js:9-11 | Evaluates the script unchanged and answers exactly the page's answer or error. |
| Executor.ScriptExecutor.RegisterScript | src/services/scriptExecutor.js:74-90 | Registers the stream with the wrapper cleanup for this id, leaves other entries alone, and makes both 'end' and 'close' stop this id. |
| Executor.ScriptExecutor.SetupScriptExecution | src/services/scriptExecutor.js:26-60 | Exposes the bridge, evaluates the rewritten script and registers, in that order. The first failure ends it with that error. A failed exposure evaluates nothing. Registration happens only if both calls succeeded. |
| Executor.ScriptExecutor.ExecuteContinuous | src/services/scriptExecutor.js:13-24 | On success, returns a fresh open stream with the generated id. The registry maps that id to the stream and its wrapper, and the stream has exactly one 'end' and one 'close' listener, both stopping that id. On any failure, destroys the stream, passes the first error on, attaches no listener and leaves the registry and its order unchanged. The bridge is exposed and the rewritten script launched exactly as far as the calls got. |
| Executor.ScriptExecutor.CleanupScript | src/services/scriptExecutor.js:92-98 | Evaluates the page sweep for this id once and answers how it settled. |
| Executor.ScriptExecutor.RunCleanup | src/services/scriptExecutor.js:77-84 | The wrapper never rejects. It sweeps the page once and destroys the stream exactly when the sweep succeeded. |
| Executor.ScriptExecutor.StopScript | src/services/scriptExecutor.js:100-102 | Answers the registry's result unchanged. A registered id is always removed with answer true, because the wrapper swallows page failures; an unknown id answers false. The removed id leaves the Map order and the rest keep their places. The page is swept once per removal. The stopped stream keeps its records and listeners, and is destroyed exactly when the sweep succeeds. |
| Executor.EndThenClose | src/services/scriptExecutor.js:88-89 | When the stream ends and then closes, the first stop answers true, the second false, and the page is swept once. |
| Interceptor.Attribute | src/assets/scripts/overrides.js:14-20 | With a non-empty current id, the new resource joins that id's set, which is created if missing. Every other id's set is unchanged. With no current id, or an empty one, the bookkeeping is unchanged. |
| Interceptor.RemoveKeeps | src/assets/scripts/overrides.js:43-54 | Forgetting one id keeps the remaining sets disjoint, and no other id's set shares a handle with the forgotten one. |
| Interceptor.Page.constructor | src/assets/scripts/overrides.js:3-4 | Before the file is evaluated, the page holds the browser's own primitives and nothing is tracked. |
| Interceptor.Page.Install | src/assets/scripts/overrides.js:2-38 | As written: saves whatever the two globals hold, empties both maps and installs the overrides, whether or not it was installed before. |
| Interceptor.Page.InstallOnce | src/assets/scripts/overrides.js:2-8 | Guarded install: a second evaluation keeps the maps and the saved originals. |
| Interceptor.Page.SetCurrentScript | src/assets/scripts/overrides.js:12 | Environment step: sets the current-script slot that both overrides read. |
| Interceptor.Page.ExposeBridge | src/assets/scripts/overrides.js:57 | Environment step: adds the `sendResult_<id>` binding that cleanup later deletes. |
| Interceptor.Page.SetInterval | src/assets/scripts/overrides.js:11-23 | Always returns the native handle. While installed, it records the handle under the current id only (see `Attribute`). Uninstalled, nothing is recorded. |
| Interceptor.Page.NewMutationObserver | src/assets/scripts/overrides.js:26-38 | Returns the native observer and records it under the current id only, in the same way. |
| Interceptor.Page.ClearIntervals | src/assets/scripts/overrides.js:42-47 | Clears exactly the intervals recorded for the id (none if unknown) and removes the id from the interval map. |
| Interceptor.Page.DisconnectObservers | src/assets/scripts/overrides.js:49-54 | Disconnects exactly the observers recorded for the id (none if unknown) and removes the id from the observer map. |
| Interceptor.Page.RestoreIfIdle | src/assets/scripts/overrides.js:60-74 | With both maps empty, the browser's own primitives are back and the interceptor is uninstalled. Otherwise nothing changes. |
| Interceptor.Page.CleanupScript | src/assets/scripts/overrides.js:41-75 | Clears and disconnects exactly this id's resources and never another id's. It removes the id from both maps, deletes its bridge binding and the current id, and uninstalls exactly when both maps end empty. Once uninstalled, it fails with the missing-map `TypeError` and changes nothing. On a page that never evaluated the file, it fails with "not a function". |
| Interceptor.LastCleanupRestores | src/assets/scripts/overrides.js:60-74 | After the last tracked id is cleaned up, a new interval is attributed to nobody. |
| Interceptor.ReinstallLosesTimer | src/assets/scripts/overrides.js:2-8 | Evaluating the file twice saves the override as the "original" and forgets a running script's interval without clearing it. |
| Interceptor.ReinstallOnceKeepsTimer | src/assets/scripts/overrides.js:2-8 | With the guarded install, the same steps keep the interval recorded and the saved original native. |

## Left out

- Page evaluation, `exposeFunction`, streams and timers are not modelled as code. Each call is a parameter saying how it settles, or a log entry.
- The text the executor evaluates in the page (src/services/scriptExecutor.js:33-56) is not modelled: the `scriptCleanup_<id>` handler, the `eval`, and its `sendResult({error})` on a thrown error. The model records only the host-side rewrite that was handed to the page under its id, and that a sweep was requested.
- Executor.LaunchedScriptRoundTrip: the round trip is about the host-side result of `modifyScript`, which `Launch` records. The page evaluates that text only after it is spliced raw into a template literal (src/services/scriptExecutor.js:48-50). A backtick in the script ends the literal early and the evaluation fails to parse. `${…}` is interpolated in the page. Backslash escapes are processed, so `"a\nb"` gets a raw newline and `/\d/` becomes `/d/`. The text `eval` runs is therefore not modelled, and nothing is claimed about it.
- JSON serialisation of bridge records is not modelled. A record keeps the data and the id as a pair.
- `Date.now()` and `Math.random()` are parameters. Nothing is claimed about id uniqueness, which the code does not ensure.
- `Math.random().toString(36)` with an exponent form or a trailing rounding digit is not modelled. The random value is its list of base-36 fraction digits.
- Executor.ScriptExecutor.ExecuteContinuous: bridge calls made while the page evaluation is still pending are not modelled. These are a `sendResult` from the script's start-up code, or the error report at src/services/scriptExecutor.js:52-53. The model makes bridge calls only after the call returns, so its `stream.items == []` reflects that ordering, not a guarantee of the code.
- Interceptor.Page.SetInterval and Interceptor.Page.NewMutationObserver assume each native handle and observer is new (`timer !in timersIssued`). The HTML standard only promises an interval id that is not currently active. A handle reused after `clearInterval` would make the isolation claims of `Interceptor.Page.CleanupScript` depend on that reuse, which is not modelled.
- Registry.ScriptManager.StopAllScripts: `Promise.all` starts every stop at once and rejects with whichever rejection settles first. The model stops the ids one after another in Map order and reports the first rejection in that order. The final table is the same.
- Concurrency and event ordering are not modelled: 'end' and 'close' re-entering `stopScript` (src/services/scriptExecutor.js:88-89), and overlapping continuous scripts. Triggers are sequential calls.
- The fixed bridge name `sendResult` colliding across scripts (src/services/scriptExecutor.js:28) is not modelled beyond "exposure may fail".
- `$` sequences in replacement strings are not modelled. Generated ids never contain `$`.
- Native `clearInterval` and `disconnect()` are not modelled beyond the set of handles they were called on.
- A script that kept a reference to the override after uninstall, and so would read the deleted `__originalSetInterval`, is not modelled.
- `src/services/browserManager.js`, the browser classes, `src/routes.js`, `src/server.js` and `src/config.js` are not part of this model. They are process, filesystem and HTTP plumbing around the core.

## Findings

| source | as written | input that shows it | evidently intended | confidence | as-written member | corrected member |
|---|---|---|---|---|---|---|
| src/assets/scripts/overrides.js:2-8 | Evaluating the file saves `window.setInterval` and `window.MutationObserver` as the originals and creates fresh bookkeeping maps, with no check for an earlier install. | Evaluate the file, set the current id to `script_1_a`, create interval 1, then evaluate the file again. The saved original is now the override (`savedSetInterval == Tracking`), so every later call would recurse into itself; the model states the saved value, not the recursion. Interval 1 is no longer recorded, so no cleanup will clear it. | Installation is guarded, so a repeated evaluation leaves the saved originals and the records alone. | medium, not executed | Interceptor.ReinstallLosesTimer | Interceptor.ReinstallOnceKeepsTimer |
