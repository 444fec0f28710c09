/**
 * The `except` branch of `Route.process_request`
 * (docent/rest/route.py:351-377): the last traceback frame decides whether
 * the original exception is surfaced or replaced by `UnexpectedError`.
 */
module Provenance {
  import opened Text
  import opened Responses

  /**
   * The three ways the branch can go: surface the exception, mask it, or fail
   * on the unbound local `is_error_from_api` (the frame did not have three parts).
   */
  datatype Provenance = Surface | Mask | Unbound

  /** `most_recent_trace.strip().split(', ')`. */
  function FrameParts(frame: string): seq<string> {
    Split(Strip(frame, Whitespace), ", ")
  }

  /** `is_error_raised or is_error_from_api`, with the unbound name when the frame has other than three parts. */
  function Classify(frame: string, apiModule: string): (p: Provenance)
    ensures p == Unbound <==> |FrameParts(frame)| != 3
    ensures p == Surface <==> |FrameParts(frame)| == 3
                              && (Contains(FrameParts(frame)[2], " raise ") || Contains(FrameParts(frame)[0], apiModule))
  {
    var parts := FrameParts(frame);
    if |parts| != 3 then Unbound
    else if Contains(parts[2], " raise ") || Contains(parts[0], apiModule) then Surface
    else Mask
  }

  /** `a, b, rest` splits at its first two separators when `a` and `b` hold none. */
  lemma SplitTwoHeads(a: string, b: string, rest: string)
    requires !Contains(a, ", ") && !Contains(b, ", ")
    ensures Split(a + ", " + b + ", " + rest, ", ") == [a, b] + Split(rest, ", ")
  {
    SplitAtFirstSeparator(b, rest);
    assert a + ", " + b + ", " + rest == a + ", " + (b + ", " + rest);
    SplitAtFirstSeparator(a, b + ", " + rest);
  }

  /**
   * A frame of the usual shape `file, line, code` (no part holding `", "`) is
   * surfaced exactly when its code part holds ` raise ` or its file part holds
   * the resource's top-level module name.
   */
  lemma ClassifyThreeParts(frame: string, file: string, line: string, code: string, apiModule: string)
    requires Strip(frame, Whitespace) == file + ", " + line + ", " + code
    requires !Contains(file, ", ") && !Contains(line, ", ") && !Contains(code, ", ")
    ensures Classify(frame, apiModule) == if Contains(code, " raise ") || Contains(file, apiModule) then Surface else Mask
  {
    SplitTwoHeads(file, line, code);
    SplitWithoutSeparator(code);
    assert FrameParts(frame) == [file, line, code];
  }

  /**
   * A frame whose code part itself holds `", "` (as `raise ValueError(a, b)`
   * does) splits into more than three parts: the branch reads the unbound name.
   */
  lemma ClassifyCommaInCode(frame: string, file: string, line: string, code: string, apiModule: string)
    requires Strip(frame, Whitespace) == file + ", " + line + ", " + code
    requires !Contains(file, ", ") && !Contains(line, ", ") && Contains(code, ", ")
    ensures Classify(frame, apiModule) == Unbound
  {
    SplitTwoHeads(file, line, code);
    SplitAtOccurrence(code, ", ");
    assert |FrameParts(frame)| == 2 + |Split(code, ", ")|;
  }

  /** A frame without any `", "` has one part: the branch reads the unbound name. */
  lemma ClassifyUnsplit(frame: string, apiModule: string)
    requires !Contains(Strip(frame, Whitespace), ", ")
    ensures Classify(frame, apiModule) == Unbound
  {
    SplitWithoutSeparator(Strip(frame, Whitespace));
  }

  /**
   * The outcome of the `except` branch: `Error.from_exception` of the original
   * exception or of `UnexpectedError`, with the error's own `errorCode` as the
   * status, or the `UnboundLocalError` that escapes.
   */
  function ErrorOutcome(f: Failure, apiModule: string, errorCode: Exc -> int): (out: Outcome)
    ensures out.Escaped? <==> Classify(f.lastFrame, apiModule) == Unbound
    ensures out.Escaped? ==> out.uncaught == UnboundLocalError
    ensures out.Replied? ==> out.response.ErrorResponse? && out.status == out.response.errorCode
                             && out.status == errorCode(out.response.exc)
    ensures Classify(f.lastFrame, apiModule) == Surface ==> out.response.exc == f.exc
    ensures Classify(f.lastFrame, apiModule) == Mask ==> out.response.exc == UnexpectedError
  {
    match Classify(f.lastFrame, apiModule)
    case Surface => Replied(ErrorResponse(f.exc, errorCode(f.exc)), errorCode(f.exc))
    case Mask => Replied(ErrorResponse(UnexpectedError, errorCode(UnexpectedError)), errorCode(UnexpectedError))
    case Unbound => Escaped(UnboundLocalError)
  }
}
