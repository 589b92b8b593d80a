/**
 The settlement rule every one-way binding shares: what a pipeline run leaves behind, and whether the
 binding must decline the acknowledgement so that the transport redelivers the message.
 */
module Settlement {
  import opened Options

  /** A recorded result, with the router's mark for a topic no handler serves. */
  datatype MessageResult = MessageResult(isSuccessful: bool, unmatchedTopic: bool)

  /** How one pipeline run ended: it threw, or it finished with or without a result. */
  datatype Outcome = Threw | Finished(result: Option<MessageResult>)

  datatype MissingResult = Redeliver | Acknowledge

  datatype Policy = Policy(atMostOnce: bool, ignoreUnmatchedTopics: bool, missing: MissingResult)

  predicate IsSettledAsFailure(result: Option<MessageResult>, ignoreUnmatchedTopics: bool, missing: MissingResult): (fails: bool)
    ensures result.Some? && result.value.isSuccessful ==> !fails
    ensures result.Some? && !result.value.isSuccessful && !result.value.unmatchedTopic ==> fails
    ensures result.Some? && !result.value.isSuccessful && result.value.unmatchedTopic ==> fails == !ignoreUnmatchedTopics
    ensures result.None? ==> (fails <==> missing == Redeliver)
  {
    match result
    case None => missing.Redeliver?
    case Some(r) => !(ignoreUnmatchedTopics && r.unmatchedTopic) && !r.isSuccessful
  }

  /** The decision of a binding that redelivers both exceptions and failure results. */
  predicate MustRedeliver(p: Policy, o: Outcome) {
    && !p.atMostOnce
    && (o.Threw? || IsSettledAsFailure(o.result, p.ignoreUnmatchedTopics, p.missing))
  }

  predicate Succeeded(o: Outcome) {
    o.Finished? && o.result.Some? && o.result.value.isSuccessful
  }

  /** `p` redelivers nothing that `q` does not. */
  ghost predicate Laxer(p: Policy, q: Policy) {
    forall o: Outcome :: MustRedeliver(p, o) ==> MustRedeliver(q, o)
  }

  /**
   The default policy redelivers everything but a success, and the knobs only ever take outcomes away from
   that: at-most-once all of them, and the carve-outs exactly the missing result and the unmatched topic.
   */
  lemma PoliciesAreOrdered(p: Policy)
    ensures forall o: Outcome :: MustRedeliver(Policy(false, false, Redeliver), o) <==> !Succeeded(o)
    ensures Laxer(p, Policy(false, false, Redeliver))
    ensures Laxer(p.(atMostOnce := true), p) && Laxer(p.(ignoreUnmatchedTopics := true), p)
    ensures Laxer(p.(missing := Acknowledge), p)
    ensures forall o: Outcome :: MustRedeliver(p, o) <==>
      && !p.atMostOnce && !Succeeded(o)
      && !(p.missing == Acknowledge && o == Finished(None))
      && !(p.ignoreUnmatchedTopics && o.Finished? && o.result.Some? && o.result.value.unmatchedTopic)
  {
  }
}
