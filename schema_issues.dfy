/** What a failed schema check reports: one issue per violated constraint, naming the path of the
    offending field and the schema's message for it. */
module SchemaIssues {
  import opened Wrappers

  /** One step of a path into the checked value: an object key or an array index. */
  datatype PathItem = Key(name: string) | Index(i: nat)

  type Path = seq<PathItem>

  datatype Issue = Issue(path: Path, message: string)

  /** `.min(min, minMessage).max(max, maxMessage)` on a string: at most one of the two fails. */
  function LengthIssues(path: Path, s: string, min: nat, max: nat, minMessage: string, maxMessage: string): (r: seq<Issue>)
    requires min <= max
    ensures r == [] <==> min <= |s| <= max
    ensures |s| < min ==> r == [Issue(path, minMessage)]
    ensures |s| > max ==> r == [Issue(path, maxMessage)]
  {
    (if |s| < min then [Issue(path, minMessage)] else []) + (if |s| > max then [Issue(path, maxMessage)] else [])
  }

  /** `.min(1, message)` on a string, with no upper bound. */
  function RequiredIssues(path: Path, s: string, message: string): (r: seq<Issue>)
    ensures r == [] <==> s != ""
    ensures s == "" ==> r == [Issue(path, message)]
  {
    if |s| < 1 then [Issue(path, message)] else []
  }

  /** `.array()` on an element schema: the issues of every element in order, each element's paths
      under its index. */
  function EachIssues<T>(path: Path, items: seq<T>, check: (Path, T) -> seq<Issue>, from: nat): (r: seq<Issue>)
    ensures r == [] <==> forall i :: 0 <= i < |items| ==> check(path + [Index(from + i)], items[i]) == []
  {
    if |items| == 0 then []
    else
      var rest := EachIssues(path, items[1..], check, from + 1);
      assert forall i :: 1 <= i < |items| ==> items[1..][i - 1] == items[i] && from + 1 + (i - 1) == from + i;
      check(path + [Index(from)], items[0]) + rest
  }

  /** `.optional()`: an absent value raises no issue. */
  function OptionalIssues<T>(path: Path, item: Option<T>, check: (Path, T) -> seq<Issue>): (r: seq<Issue>)
    ensures item.None? ==> r == []
    ensures item.Some? ==> r == check(path, item.value)
  {
    match item
    case None => []
    case Some(v) => check(path, v)
  }
}
