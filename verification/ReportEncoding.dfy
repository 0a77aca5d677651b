/** The bounded encoder, and what a report owes it under the derived limits (compilation codec.rs, limits.rs). */
module ReportEncoding {
  import opened Machine
  import opened Protocol
  import opened CompilationReport
  import opened ReportJson

  // ----- the bounded encoder -----

  function Line(v: J.Value): J.Bytes { J.Write(v) + [J.LINE_FEED] }

  /** The line of a value fits its limits. */
  predicate LineFits(v: J.Value, maxBytes: nat, maxDepth: nat) {
    |J.Write(v)| + 1 <= maxBytes && J.Accepts(Line(v), maxDepth)
  }

  /** `encode_validated`: however the serializer chunks its output, the line is returned exactly when it fits. */
  method EncodeLine(v: J.Value, chunks: seq<J.Bytes>, maxBytes: NonZero64, maxDepth: NonZero16)
    returns (line: Option<J.Bytes>)
    requires J.Joined(chunks) == J.Write(v)
    ensures line == if LineFits(v, maxBytes, maxDepth) then Some(Line(v)) else None
  {
    var collected := J.CollectLine(chunks, maxBytes);
    if collected.Err? { return None; }
    var nested := J.EnforceNesting(collected.value, maxDepth);
    return if nested.Ok? then Some(collected.value) else None;
  }

  /** A line that is nested within the limit passes the nesting check at any limit. */
  lemma {:induction false} ShallowLineAccepted(v: J.Value, maxDepth: NonZero16)
    requires J.WellFormed(v) && J.Depth(v) <= maxDepth
    ensures J.Accepts(Line(v), maxDepth)
  {
    if maxDepth < U16_MAX {
      J.AcceptsIffShallow([], v, [J.LINE_FEED], maxDepth);
      assert J.WriteDocument([], v, [J.LINE_FEED]) == Line(v);
    } else {
      J.MaximumAcceptsEverything(J.At(0).value, Line(v));
    }
  }

  // ----- reports -----

  /** The canonical line of a report fits its limits. */
  predicate Encodes(show: Show, r: CompilationResult, limits: CompilationLimits) {
    LineFits(ResultJson(show, r), limits.maxEncodedBytes, limits.maxJsonNestingDepth)
  }

  /** Under derived limits the nesting check never fails, so the size alone decides. */
  lemma {:induction false} EncodesIffFits(show: Show, r: CompilationResult, limits: RuntimeLimits)
    ensures Encodes(show, r, DerivedLimits(limits)) <==>
      ReportSize(show, r) + 1 <= DerivedLimits(limits).maxEncodedBytes
  {
    ResultNests(show, r);
    ResultTakes(show, r);
    ShallowLineAccepted(ResultJson(show, r), DerivedLimits(limits).maxJsonNestingDepth);
  }
}
