/** The reference meaning of a fallback chain: the first candidate that is not null. */
module Fallback {
  import opened Wrappers

  /**
   * The first present candidate. The result is absent exactly when every
   * candidate is absent; otherwise it is a candidate all of whose
   * predecessors are absent.
   */
  function FirstPresent<T>(candidates: seq<Option<T>>): (r: Option<T>)
    ensures r.None? <==> forall i :: 0 <= i < |candidates| ==> candidates[i].None?
    ensures r.Some? ==>
      exists i :: 0 <= i < |candidates| && candidates[i] == r &&
        forall j :: 0 <= j < i ==> candidates[j].None?
  {
    if |candidates| == 0 then None
    else if candidates[0].Some? then candidates[0]
    else FirstPresent(candidates[1..])
  }

  /** A present candidate whose predecessors are all absent is the result. */
  lemma FirstPresentAt<T>(candidates: seq<Option<T>>, k: nat)
    requires k < |candidates| && candidates[k].Some?
    requires forall j :: 0 <= j < k ==> candidates[j].None?
    ensures FirstPresent(candidates) == candidates[k]
  {
  }

  /**
   * Once a candidate is present, what comes after it is never consulted:
   * two chains that agree up to and including that candidate give the same result.
   */
  lemma FirstPresentIgnoresLater<T>(a: seq<Option<T>>, b: seq<Option<T>>, k: nat)
    requires k < |a| && k < |b| && a[..k + 1] == b[..k + 1]
    requires a[k].Some?
    ensures FirstPresent(a) == FirstPresent(b)
  {
  }

  /**
   * The chain read one candidate at a time: from position k on, the result is
   * candidate k when present and otherwise the result from position k+1 on.
   */
  ghost predicate ReadsCandidate<T>(candidates: seq<Option<T>>, k: nat)
    requires k < |candidates|
  {
    FirstPresent(candidates[k..]) ==
      if candidates[k].Some? then candidates[k] else FirstPresent(candidates[k + 1..])
  }

  lemma FirstPresentStep<T>(candidates: seq<Option<T>>, k: nat)
    requires k < |candidates|
    ensures ReadsCandidate(candidates, k)
  {
  }

  /** `FirstPresentStep` at every position, and the two ends of the chain. */
  lemma FirstPresentStepwise<T>(candidates: seq<Option<T>>)
    ensures FirstPresent(candidates) == FirstPresent(candidates[0..])
    ensures FirstPresent(candidates[|candidates|..]) == None
    ensures forall k: nat {:trigger candidates[k..]} :: k < |candidates| ==> ReadsCandidate(candidates, k)
  {
    assert candidates[0..] == candidates;
    forall k: nat | k < |candidates| ensures ReadsCandidate(candidates, k) {
      FirstPresentStep(candidates, k);
    }
  }
}
