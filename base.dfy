/** Values shared by every component: identities, optional values, outcomes of awaited calls. */
module Base {

  /** A script identity as produced by `generateScriptId`. */
  type ScriptId = seq<char>

  /** An error message carried by a rejected promise or a thrown exception. */
  type Message = seq<char>

  datatype Option<T> = None | Some(value: T)

  /** How an awaited call settles: it resolves, or it rejects with a message. */
  datatype Outcome = Pass | Fail(error: Message)

  /** A resolved value or a rejection. */
  datatype Result<T> = Success(value: T) | Failure(error: Message)

  /** `s` begins with `p`. */
  predicate StartsWith(s: seq<char>, p: seq<char>) {
    |p| <= |s| && s[..|p|] == p
  }

  /** `s` ends with `p`. */
  predicate EndsWith(s: seq<char>, p: seq<char>) {
    |p| <= |s| && s[|s| - |p|..] == p
  }

  /** `c` does not occur in `s`. */
  predicate Free(s: seq<char>, c: char) {
    forall i :: 0 <= i < |s| ==> s[i] != c
  }
}
