/** What a table holds, told by its history: an entry stands when an event of the run made it and no event
    since has removed it. */
module History {

  /** made[k] and gone[k] say whether the k-th event of a run makes and removes the entry. */
  ghost predicate Standing(made: seq<bool>, gone: seq<bool>)
  {
    exists k :: 0 <= k < |made| && made[k] && forall j :: k < j < |gone| ==> !gone[j]
  }

  /** An entry stands after one more event if that makes it, or it stood and is not removed now. */
  lemma {:induction false} StandingStep(made: seq<bool>, gone: seq<bool>)
    requires |made| == |gone| > 0
    ensures var n := |made| - 1;
            Standing(made, gone) <==> made[n] || (Standing(made[..n], gone[..n]) && !gone[n])
  {
    var n := |made| - 1;
    if Standing(made[..n], gone[..n]) && !gone[n] {
      var k :| 0 <= k < n && made[..n][k] && forall j :: k < j < n ==> !gone[..n][j];
      assert made[k] && forall j :: k < j < n ==> gone[j] == gone[..n][j];
    }
    if Standing(made, gone) && !made[n] {
      var k :| 0 <= k < |made| && made[k] && forall j :: k < j < |gone| ==> !gone[j];
      assert made[..n][k] && forall j :: k < j < n ==> gone[..n][j] == gone[j];
    }
  }
}
