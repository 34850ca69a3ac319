/** Vocabulary shared by both translators: optional values, outcomes, the
    JavaScript truthiness test the translator applies to string fields, and
    the two file checks made before any stream is opened. */
module Common {

  /** An optional value; `None` stands for `undefined` (or an empty text node
      where the XML reader reports one). */
  datatype Option<+T> = None | Some(value: T) {

    /** The value, or `default` when there is none (JavaScript's `x || default`
        for values that are never falsy when present). */
    function GetOr(default: T): T {
      match this
      case Some(v) => v
      case None => default
    }
  }

  datatype Result<+R, +E> = Success(value: R) | Failure(error: E)

  /** Why a translation promise is rejected. */
  datatype Rejection =
    | SourceMissing   // the source file does not exist
    | TargetExists    // the target file exists and override was not asked for
    | NoLocation      // an XML record closed while no location was in scope
    | MalformedLine   // a non-empty NDJSON line that JSON.parse refused

  /** The pair both translators resolve with. */
  datatype Counts = Counts(recordsCount: nat, inventoriesCount: nat)

  /** What a run leaves at the target path: nothing (the file checks failed before a
      stream was opened) or the content written to it. */
  datatype Target<+T> = Untouched | Written(content: T)

  /** A string-valued field as an `if (x)` test sees it: present and non-empty. */
  predicate Truthy(s: Option<string>) {
    s.Some? && s.value != ""
  }

  /** The file checks both translators make before opening any stream: the source
      must exist, and an existing target is only replaced with `override`. */
  function Precheck(sourceExists: bool, targetExists: bool, override: bool): (r: Option<Rejection>)
    ensures r == None <==> sourceExists && (!targetExists || override)
    ensures r == Some(SourceMissing) <==> !sourceExists
    ensures r == Some(TargetExists) <==> sourceExists && targetExists && !override
  {
    if !sourceExists then Some(SourceMissing)
    else if targetExists && !override then Some(TargetExists)
    else None
  }

  /** Appending an element leaves every prefix of the original in place. */
  lemma PrefixOfSnoc<T>(s: seq<T>, x: T, i: int)
    requires 0 <= i <= |s|
    ensures (s + [x])[..i] == s[..i]
  {
  }

  /** The prefix of length `k` ends with element `k - 1` after the prefix of
      length `k - 1`. */
  lemma PrefixStep<T>(s: seq<T>, k: nat)
    requires 0 < k <= |s|
    ensures s[..k][..k - 1] == s[..k - 1] && s[..k][k - 1] == s[k - 1]
  {
  }
}
