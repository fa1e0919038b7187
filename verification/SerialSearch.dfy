/** The integration tests' search for log lines: patterns must be found one after the other. */
module SerialSearch {
  /** A log line for every pattern, each one after the one before. */
  ghost predicate InOrder<L, P>(logs: seq<L>, patterns: seq<P>, matches: (P, L) -> bool, at: seq<nat>) {
    && |at| == |patterns|
    && (forall i :: 0 <= i < |at| ==> at[i] < |logs| && matches(patterns[i], logs[at[i]]))
    && (forall i, j :: 0 <= i < j < |at| ==> at[i] < at[j])
  }

  /** `SerialSearch`: taking each pattern's first match is sound and complete, for any notion of matching. */
  method Search<L, P>(logs: seq<L>, patterns: seq<P>, matches: (P, L) -> bool) returns (found: bool)
    ensures found <==> exists at :: InOrder(logs, patterns, matches, at)
  {
    var patternsMatched := 0;
    ghost var at: seq<nat> := [];
    for i := 0 to |logs|
      invariant patternsMatched == |at| <= |patterns|
      invariant InOrder(logs, patterns[..patternsMatched], matches, at)
      invariant forall k :: 0 <= k < |at| ==> at[k] < i
      invariant forall other :: InOrder(logs, patterns, matches, other) && patternsMatched < |patterns| ==>
                                  i <= other[patternsMatched]
    {
      if patternsMatched == |patterns| {
        assert patterns[..patternsMatched] == patterns;
        return true;
      }
      if matches(patterns[patternsMatched], logs[i]) {
        patternsMatched := patternsMatched + 1;
        at := at + [i];
      }
    }
    if patternsMatched == |patterns| {
      assert patterns[..patternsMatched] == patterns;
    }
    return patternsMatched == |patterns|;
  }
}
