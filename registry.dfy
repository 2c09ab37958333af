/**
 * The script registry (`ScriptManager`): a table from script id to the
 * script's result stream and its cleanup closure, with stop semantics that
 * run the cleanup before the entry is removed, and the id generator.
 */
module Registry {
  import opened Base
  import opened Channel

  // ---------------------------------------------------------------------
  // Script ids: `script_${Date.now()}_${Math.random().toString(36).substr(2, 9)}`

  function Min(a: nat, b: nat): nat { if a <= b then a else b }

  predicate IsDigit(c: char) { '0' <= c <= '9' }

  predicate IsBase36(c: char) { '0' <= c <= '9' || 'a' <= c <= 'z' }

  predicate AllDigits(s: seq<char>) { forall i :: 0 <= i < |s| ==> IsDigit(s[i]) }

  predicate AllBase36(s: seq<char>) { forall i :: 0 <= i < |s| ==> IsBase36(s[i]) }

  function DigitChar(d: nat): char
    requires d < 10
  {
    "0123456789"[d]
  }

  /** The value of a string of decimal digits. */
  function ParseDecimal(s: seq<char>): nat
    requires AllDigits(s)
    decreases |s|
  {
    if |s| == 0 then 0
    else 10 * ParseDecimal(s[..|s| - 1]) + ((s[|s| - 1] as int) - ('0' as int))
  }

  /** Decimal rendering of a non-negative integer, as a template literal prints `Date.now()`. */
  function Decimal(n: nat): (r: seq<char>)
    ensures |r| > 0 && AllDigits(r)
    ensures |r| == 1 || r[0] != '0'
    ensures ParseDecimal(r) == n
    decreases n
  {
    if n < 10 then [DigitChar(n)]
    else
      var r := Decimal(n / 10) + [DigitChar(n % 10)];
      assert r[..|r| - 1] == Decimal(n / 10);
      r
  }

  /** `String.prototype.substr(start, length)` for non-negative arguments. */
  function Substr(s: seq<char>, start: nat, length: nat): seq<char> {
    s[Min(start, |s|)..Min(start + length, |s|)]
  }

  /**
   * `Math.random().toString(36)` for a random value whose base-36 fraction
   * digits are `fraction`: "0" for zero, otherwise "0." and the digits.
   */
  function RandomText(fraction: seq<char>): seq<char> {
    if fraction == [] then "0" else "0." + fraction
  }

  /**
   * `generateScriptId`, with the clock reading `now` and the random value's
   * base-36 digits `fraction` as parameters: the prefix, the timestamp
   * digits, an underscore, and at most nine random digits.
   */
  function GenerateScriptId(now: nat, fraction: seq<char>): (id: ScriptId)
    ensures id == "script_" + Decimal(now) + "_" + fraction[..Min(9, |fraction|)]
  {
    "script_" + Decimal(now) + "_" + Substr(RandomText(fraction), 2, 9)
  }

  /** The two variable parts of a script id. */
  datatype IdParts = IdParts(timestamp: nat, suffix: seq<char>)

  /** Index of the first occurrence of `c` in `s`. */
  function IndexOf(s: seq<char>, c: char): (r: Option<nat>)
    ensures r.Some? ==> r.value < |s| && s[r.value] == c && Free(s[..r.value], c)
    ensures r.None? ==> Free(s, c)
    decreases |s|
  {
    if |s| == 0 then None
    else if s[0] == c then Some(0)
    else match IndexOf(s[1..], c)
      case None => None
      case Some(k) =>
        assert s[..k + 1] == [s[0]] + s[1..][..k];
        Some(k + 1)
  }

  /** Reads a script id back into its timestamp and its random suffix. */
  function ParseScriptId(id: seq<char>): Option<IdParts> {
    if !StartsWith(id, "script_") then None else ParseIdBody(id[7..])
  }

  /** Reads the part after `script_`: a digit run, `_`, then the suffix. */
  function ParseIdBody(rest: seq<char>): Option<IdParts> {
    match IndexOf(rest, '_')
    case None => None
    case Some(k) =>
      if k == 0 || !AllDigits(rest[..k]) then None
      else Some(IdParts(ParseDecimal(rest[..k]), rest[k + 1..]))
  }

  /** A generated id determines the timestamp and the random suffix it was built from. */
  lemma ScriptIdRoundTrip(now: nat, fraction: seq<char>)
    ensures ParseScriptId(GenerateScriptId(now, fraction))
         == Some(IdParts(now, fraction[..Min(9, |fraction|)]))
  {
    var digits, suffix := Decimal(now), fraction[..Min(9, |fraction|)];
    assert GenerateScriptId(now, fraction) == "script_" + (digits + "_" + suffix);
    ParseParts(digits, suffix);
  }

  /** An id assembled from a non-empty digit run and any suffix reads back as those two parts. */
  lemma ParseParts(digits: seq<char>, suffix: seq<char>)
    requires |digits| > 0 && AllDigits(digits)
    ensures ParseScriptId("script_" + (digits + "_" + suffix)) == Some(IdParts(ParseDecimal(digits), suffix))
  {
    ParsePrefixed(digits + "_" + suffix);
    ParseBody(digits, suffix);
  }

  /** `script_` in front of a body hands the body to `ParseIdBody`. */
  lemma ParsePrefixed(rest: seq<char>)
    ensures ParseScriptId("script_" + rest) == ParseIdBody(rest)
  {
    var id := "script_" + rest;
    assert id[..7] == "script_";
    assert id[7..] == rest;
  }

  /** A digit run, `_` and a suffix read back as the number and the suffix. */
  lemma ParseBody(digits: seq<char>, suffix: seq<char>)
    requires |digits| > 0 && AllDigits(digits)
    ensures ParseIdBody(digits + "_" + suffix) == Some(IdParts(ParseDecimal(digits), suffix))
  {
    var rest := digits + "_" + suffix;
    IndexOfAfterDigits(digits, suffix);
    assert rest[..|digits|] == digits;
    assert rest[|digits| + 1..] == suffix;
  }

  /** The first underscore after a run of digits is the one that ends the run. */
  lemma {:induction false} IndexOfAfterDigits(digits: seq<char>, tail: seq<char>)
    requires AllDigits(digits)
    ensures IndexOf(digits + "_" + tail, '_') == Some(|digits|)
    decreases |digits|
  {
    var s := digits + "_" + tail;
    if |digits| == 0 {
      assert s[0] == '_';
    } else {
      assert IsDigit(digits[0]);
      assert s[0] != '_';
      assert s[1..] == digits[1..] + "_" + tail;
      IndexOfAfterDigits(digits[1..], tail);
    }
  }

  /**
   * With base-36 random digits an id consists of lower-case letters, digits
   * and underscores, so it contains no `(`, and its random part has at most
   * nine characters.
   */
  lemma ScriptIdCharacters(now: nat, fraction: seq<char>)
    requires AllBase36(fraction)
    ensures forall i :: 0 <= i < |GenerateScriptId(now, fraction)| ==>
      IsBase36(GenerateScriptId(now, fraction)[i]) || GenerateScriptId(now, fraction)[i] == '_'
    ensures Free(GenerateScriptId(now, fraction), '(')
    ensures |GenerateScriptId(now, fraction)| <= 8 + |Decimal(now)| + 9
  {
    var digits := Decimal(now);
    var suffix := fraction[..Min(9, |fraction|)];
    var id := GenerateScriptId(now, fraction);
    forall i | 0 <= i < |id| ensures IsBase36(id[i]) || id[i] == '_' {
      if i < 7 {
        assert id[i] == "script_"[i];
      } else if i < 7 + |digits| {
        assert id[i] == digits[i - 7];
        assert IsDigit(digits[i - 7]);
      } else if i == 7 + |digits| {
        assert id[i] == '_';
      } else {
        assert id[i] == suffix[i - 8 - |digits|];
      }
    }
  }

  // ---------------------------------------------------------------------
  // The table

  /** The cleanup closure registered for a script; the registry only awaits it. */
  datatype Cleanup = Cleanup(owner: ScriptId)

  /** The `{ stream, cleanup }` value stored per id; `cleanup` may be absent. */
  datatype Entry = Entry(stream: Stream, cleanup: Option<Cleanup>)

  predicate NoDuplicates(s: seq<ScriptId>) {
    forall i, j :: 0 <= i < j < |s| ==> s[i] != s[j]
  }

  /** `s` without `id`. */
  function Without(s: seq<ScriptId>, id: ScriptId): (r: seq<ScriptId>)
    ensures forall k :: k in r <==> k in s && k != id
    ensures NoDuplicates(s) ==> NoDuplicates(r)
    decreases |s|
  {
    if s == [] then []
    else if s[0] == id then Without(s[1..], id)
    else
      var rest := Without(s[1..], id);
      assert NoDuplicates(s) ==> s[0] !in s[1..] by {
        if NoDuplicates(s) {
          forall j | 0 <= j < |s| - 1 ensures s[1..][j] != s[0] {
            assert s[1..][j] == s[j + 1];
          }
        }
      }
      [s[0]] + rest
  }

  /** The ids of `s` that still have an entry in `m`, in the order of `s`. */
  function KeepIn(s: seq<ScriptId>, m: map<ScriptId, Entry>): (r: seq<ScriptId>)
    ensures forall k :: k in r <==> k in s && k in m
    ensures |r| <= |s|
    decreases |s|
  {
    if s == [] then []
    else (if s[0] in m then [s[0]] else []) + KeepIn(s[1..], m)
  }

  /** Keeping every id of `s` changes nothing. */
  lemma {:induction false} KeepInAll(s: seq<ScriptId>, m: map<ScriptId, Entry>)
    requires forall k :: k in s ==> k in m
    ensures KeepIn(s, m) == s
    decreases |s|
  {
    if s != [] {
      KeepInAll(s[1..], m);
      assert [s[0]] + s[1..] == s;
    }
  }

  /** Dropping `id` from the table drops it from the kept order and nothing else. */
  lemma {:induction false} KeepInRemove(s: seq<ScriptId>, m: map<ScriptId, Entry>, id: ScriptId)
    ensures KeepIn(s, m - {id}) == Without(KeepIn(s, m), id)
    decreases |s|
  {
    if s != [] {
      KeepInRemove(s[1..], m, id);
      var head := if s[0] in m then [s[0]] else [];
      var rest := KeepIn(s[1..], m);
      if head != [] {
        assert (head + rest)[0] == s[0] && (head + rest)[1..] == rest;
      } else {
        assert head + rest == rest;
      }
    }
  }

  /** Whether stopping `id` in table `m` runs a cleanup (`script?.cleanup` is truthy). */
  predicate HasCleanup(m: map<ScriptId, Entry>, id: ScriptId) {
    id in m && m[id].cleanup.Some?
  }

  /** The ids among `keys` whose stop runs a cleanup, in the order they are stopped. */
  function CleanupOrder(keys: seq<ScriptId>, m: map<ScriptId, Entry>): seq<ScriptId>
    decreases |keys|
  {
    if keys == [] then []
    else
      var last := keys[|keys| - 1];
      CleanupOrder(keys[..|keys| - 1], m) + (if HasCleanup(m, last) then [last] else [])
  }

  /** The entries of `m` left after stopping every id of `keys`; `failing` maps ids to their cleanup's rejection. */
  function Survivors(m: map<ScriptId, Entry>, keys: seq<ScriptId>, failing: map<ScriptId, Message>): map<ScriptId, Entry> {
    map k | k in m && !(k in keys && HasCleanup(m, k) && k !in failing) :: m[k]
  }

  /** The first rejection met when stopping `keys` in order. */
  function FirstFailure(keys: seq<ScriptId>, m: map<ScriptId, Entry>, failing: map<ScriptId, Message>): Outcome
    decreases |keys|
  {
    if keys == [] then Pass
    else
      var last := keys[|keys| - 1];
      var before := FirstFailure(keys[..|keys| - 1], m, failing);
      if before.Fail? then before
      else if HasCleanup(m, last) && last in failing then Fail(failing[last])
      else Pass
  }

  /** Number of times `x` occurs in `s`. */
  function Count(s: seq<ScriptId>, x: ScriptId): nat
    decreases |s|
  {
    if s == [] then 0 else Count(s[..|s| - 1], x) + (if s[|s| - 1] == x then 1 else 0)
  }

  /** `stopAllScripts` runs the cleanup of every entry that has one exactly once. */
  lemma {:induction false} CleanupOrderOnce(keys: seq<ScriptId>, m: map<ScriptId, Entry>, id: ScriptId)
    requires NoDuplicates(keys)
    ensures Count(CleanupOrder(keys, m), id) == if id in keys && HasCleanup(m, id) then 1 else 0
    decreases |keys|
  {
    if keys != [] {
      var init := keys[..|keys| - 1];
      var last := keys[|keys| - 1];
      CleanupOrderOnce(init, m, id);
      CountAppend(CleanupOrder(init, m), if HasCleanup(m, last) then [last] else [], id);
      assert keys == init + [last];
      assert id in keys <==> id in init || id == last;
      if id == last {
        assert id !in init by {
          forall j | 0 <= j < |init| ensures init[j] != id {
            assert keys[j] == init[j];
          }
        }
      }
    }
  }

  lemma {:induction false} CountAppend(a: seq<ScriptId>, b: seq<ScriptId>, x: ScriptId)
    ensures Count(a + b, x) == Count(a, x) + Count(b, x)
    decreases |b|
  {
    if b != [] {
      assert (a + b)[..|a + b| - 1] == a + b[..|b| - 1];
      CountAppend(a, b[..|b| - 1], x);
    } else {
      assert a + b == a;
    }
  }

  /** Once every cleanup resolves, only entries without a cleanup remain. */
  lemma StopAllLeavesOnlyInert(m: map<ScriptId, Entry>, keys: seq<ScriptId>)
    requires forall k :: k in m ==> k in keys
    ensures forall k :: k in Survivors(m, keys, map[]) ==> m[k].cleanup.None?
    ensures (forall k :: k in m ==> m[k].cleanup.Some?) ==> Survivors(m, keys, map[]) == map[]
  {
  }

  /** How one more stop in `stopAllScripts` changes the table, the cleanup log and the answer. */
  lemma StopStep(m: map<ScriptId, Entry>, keys: seq<ScriptId>, i: nat, failing: map<ScriptId, Message>)
    requires NoDuplicates(keys) && i < |keys|
    ensures HasCleanup(Survivors(m, keys[..i], failing), keys[i]) == HasCleanup(m, keys[i])
    ensures HasCleanup(m, keys[i]) ==> Survivors(m, keys[..i], failing)[keys[i]] == m[keys[i]]
    ensures Survivors(m, keys[..i + 1], failing)
         == if HasCleanup(m, keys[i]) && keys[i] !in failing
            then Survivors(m, keys[..i], failing) - {keys[i]}
            else Survivors(m, keys[..i], failing)
    ensures CleanupOrder(keys[..i + 1], m)
         == CleanupOrder(keys[..i], m) + (if HasCleanup(m, keys[i]) then [keys[i]] else [])
    ensures FirstFailure(keys[..i + 1], m, failing)
         == (var before := FirstFailure(keys[..i], m, failing);
             if before.Fail? then before
             else if HasCleanup(m, keys[i]) && keys[i] in failing then Fail(failing[keys[i]])
             else Pass)
  {
    var id := keys[i];
    assert keys[..i + 1][..i] == keys[..i];
    assert id !in keys[..i] by {
      forall j | 0 <= j < i ensures keys[..i][j] != id {
        assert keys[j] != keys[i];
      }
    }
    assert forall k :: k in keys[..i + 1] <==> k in keys[..i] || k == id;
  }

  /** The loop step of `stopAllScripts`: one `stopScript` moves every summary from `keys[..i]` to `keys[..i + 1]`. */
  lemma StopAdvance(m: map<ScriptId, Entry>, keys: seq<ScriptId>, i: nat, failing: map<ScriptId, Message>,
                    start: seq<ScriptId>, table: map<ScriptId, Entry>, calls: seq<ScriptId>, answer: Outcome,
                    table': map<ScriptId, Entry>, calls': seq<ScriptId>, stopped: Result<bool>, answer': Outcome)
    requires NoDuplicates(keys) && i < |keys|
    requires table == Survivors(m, keys[..i], failing)
    requires calls == start + CleanupOrder(keys[..i], m)
    requires answer == FirstFailure(keys[..i], m, failing)
    requires calls' == calls + (if HasCleanup(table, keys[i]) then [keys[i]] else [])
    requires !HasCleanup(table, keys[i]) ==> stopped == Success(false) && table' == table
    requires HasCleanup(table, keys[i]) && keys[i] !in failing ==> stopped == Success(true) && table' == table - {keys[i]}
    requires HasCleanup(table, keys[i]) && keys[i] in failing ==> stopped == Failure(failing[keys[i]]) && table' == table
    requires answer' == if stopped.Failure? && answer.Pass? then Fail(stopped.error) else answer
    ensures table' == Survivors(m, keys[..i + 1], failing)
    ensures calls' == start + CleanupOrder(keys[..i + 1], m)
    ensures answer' == FirstFailure(keys[..i + 1], m, failing)
  {
    StopStep(m, keys, i, failing);
  }

  class ScriptManager {
    /** `activeScripts`. */
    var activeScripts: map<ScriptId, Entry>
    /** The keys of `activeScripts` in insertion order, as a JavaScript `Map` iterates them. */
    var order: seq<ScriptId>
    /** Ids whose cleanup `stopScript` has invoked, in call order. */
    ghost var cleanupCalls: seq<ScriptId>

    ghost predicate Valid()
      reads this
    {
      NoDuplicates(order) && forall k :: k in activeScripts <==> k in order
    }

    constructor ()
      ensures Valid()
      ensures activeScripts == map[] && order == [] && cleanupCalls == []
    {
      activeScripts := map[];
      order := [];
      cleanupCalls := [];
    }

    /** Stopping `id` now would run a cleanup. */
    predicate WillClean(id: ScriptId)
      reads this
    {
      HasCleanup(activeScripts, id)
    }

    /** `registerScript`: stores the entry under `id` and returns `id`. */
    method RegisterScript(id: ScriptId, entry: Entry) returns (r: ScriptId)
      requires Valid()
      modifies this
      ensures Valid()
      ensures r == id
      ensures activeScripts == old(activeScripts)[id := entry]
      ensures order == if id in old(activeScripts) then old(order) else old(order) + [id]
      ensures cleanupCalls == old(cleanupCalls)
    {
      if id !in activeScripts {
        order := order + [id];
      }
      activeScripts := activeScripts[id := entry];
      r := id;
    }

    /**
     * `stopScript`: when the entry has a cleanup, awaits it (`result` is how
     * the cleanup settles); on success removes the entry and answers true,
     * on rejection passes the rejection on and keeps the entry. Without an
     * entry or a cleanup it answers false and changes nothing.
     */
    method StopScript(id: ScriptId, result: Outcome) returns (r: Result<bool>)
      requires Valid()
      modifies this
      ensures Valid()
      ensures cleanupCalls == old(cleanupCalls) + (if old(WillClean(id)) then [id] else [])
      ensures !old(WillClean(id)) ==>
        r == Success(false) && activeScripts == old(activeScripts) && order == old(order)
      ensures old(WillClean(id)) && result.Pass? ==>
        r == Success(true) && activeScripts == old(activeScripts) - {id} && order == Without(old(order), id)
      ensures old(WillClean(id)) && result.Fail? ==>
        r == Failure(result.error) && activeScripts == old(activeScripts) && order == old(order)
    {
      if WillClean(id) {
        cleanupCalls := cleanupCalls + [id];
        if result.Fail? {
          return Failure(result.error);
        }
        activeScripts := activeScripts - {id};
        order := Without(order, id);
        return Success(true);
      }
      return Success(false);
    }

    /**
     * `stopAllScripts`: stops every id present at call time, in the map's
     * order; `failing` gives the rejection of each cleanup that rejects. The
     * answer is the first rejection, if any.
     */
    method StopAllScripts(failing: map<ScriptId, Message>) returns (r: Outcome)
      requires Valid()
      modifies this
      ensures Valid()
      ensures cleanupCalls == old(cleanupCalls) + CleanupOrder(old(order), old(activeScripts))
      ensures activeScripts == Survivors(old(activeScripts), old(order), failing)
      ensures r == FirstFailure(old(order), old(activeScripts), failing)
      ensures order == KeepIn(old(order), activeScripts)
    {
      var keys := order;
      ghost var m := activeScripts;
      var i := 0;
      r := Pass;
      KeepInAll(keys, m);
      while i < |keys|
        invariant Valid()
        invariant 0 <= i <= |keys|
        invariant cleanupCalls == old(cleanupCalls) + CleanupOrder(keys[..i], m)
        invariant activeScripts == Survivors(m, keys[..i], failing)
        invariant r == FirstFailure(keys[..i], m, failing)
        invariant order == KeepIn(keys, activeScripts)
      {
        r := StopNext(m, keys, i, failing, old(cleanupCalls), r);
        ghost var next := keys[..i + 1];
        i := i + 1;
        assert keys[..i] == next;
      }
      assert keys[..i] == keys;
    }
    /** One round of `stopAllScripts`: stops `keys[i]` and folds a rejection into the answer so far. */
    method StopNext(ghost m: map<ScriptId, Entry>, keys: seq<ScriptId>, i: nat, failing: map<ScriptId, Message>,
                    ghost start: seq<ScriptId>, answer: Outcome) returns (r: Outcome)
      requires Valid() && NoDuplicates(keys) && i < |keys|
      requires cleanupCalls == start + CleanupOrder(keys[..i], m)
      requires activeScripts == Survivors(m, keys[..i], failing)
      requires answer == FirstFailure(keys[..i], m, failing)
      requires order == KeepIn(keys, activeScripts)
      modifies this
      ensures Valid()
      ensures cleanupCalls == start + CleanupOrder(keys[..i + 1], m)
      ensures activeScripts == Survivors(m, keys[..i + 1], failing)
      ensures r == FirstFailure(keys[..i + 1], m, failing)
      ensures order == KeepIn(keys, activeScripts)
    {
      var id := keys[i];
      ghost var table, calls := activeScripts, cleanupCalls;
      KeepInRemove(keys, table, id);
      var result := if id in failing then Fail(failing[id]) else Pass;
      var stopped := StopScript(id, result);
      r := if stopped.Failure? && answer.Pass? then Fail(stopped.error) else answer;
      StopAdvance(m, keys, i, failing, start, table, calls, answer, activeScripts, cleanupCalls, stopped, r);
    }
  }

  /** Two stops in a row answer true and then false, and the cleanup runs once. */
  method StopTwice(registry: ScriptManager, id: ScriptId) returns (first: Result<bool>, second: Result<bool>)
    requires registry.Valid() && registry.WillClean(id)
    modifies registry
    ensures registry.Valid()
    ensures first == Success(true) && second == Success(false)
    ensures registry.cleanupCalls == old(registry.cleanupCalls) + [id]
    ensures registry.activeScripts == old(registry.activeScripts) - {id}
  {
    first := registry.StopScript(id, Pass);
    second := registry.StopScript(id, Pass);
  }
}
