/** The process status listener of the vision samples
    (vision/shared/StatusListener.h): it is running from construction until
    processing finishes or fails, and it never runs again; a failure is
    reported by printing the exception and every exception nested in it,
    each one space further in. */
module Status {

  /** What rethrow_if_nested finds inside an exception: nothing, a
      std::exception, or something else, which is caught and ignored. */
  datatype Nested = NoNested | StdNested(inner: Exception) | OtherNested

  /** A std::exception: its what() text and what it holds. */
  datatype Exception = Exception(what: string, nested: Nested)

  /** The std::exception values in the chain, outermost first. */
  function Chain(e: Exception): (es: seq<Exception>)
    ensures |es| >= 1 && es[0] == e
  {
    match e.nested
    case StdNested(inner) => [e] + Chain(inner)
    case _ => [e]
  }

  function Spaces(n: nat): (s: string)
    ensures |s| == n && forall i :: 0 <= i < n ==> s[i] == ' '
  {
    if n == 0 then "" else Spaces(n - 1) + " "
  }

  /** The line print_exception writes for one exception at a level. */
  function ExceptionLine(e: Exception, level: nat): string {
    Spaces(level) + "exception: " + e.what + "\n"
  }

  /** print_exception(e, level): the line for e, then, if e holds a
      std::exception, what printing that one a level deeper writes. */
  function PrintException(e: Exception, level: nat): seq<string> {
    match e.nested
    case StdNested(inner) => [ExceptionLine(e, level)] + PrintException(inner, level + 1)
    case _ => [ExceptionLine(e, level)]
  }

  /** The lines for a run of exceptions, each one level deeper than the one before. */
  function Indented(es: seq<Exception>, level: nat): seq<string>
    decreases |es|
  {
    if es == [] then [] else [ExceptionLine(es[0], level)] + Indented(es[1..], level + 1)
  }

  /** The k-th line is the k-th exception's, k levels deeper. */
  lemma {:induction false} IndentedLines(es: seq<Exception>, level: nat)
    ensures |Indented(es, level)| == |es|
    ensures forall k :: 0 <= k < |es| ==> Indented(es, level)[k] == ExceptionLine(es[k], level + k)
    decreases |es|
  {
    if es != [] {
      var tail := Indented(es[1..], level + 1);
      IndentedLines(es[1..], level + 1);
      assert Indented(es, level) == [ExceptionLine(es[0], level)] + tail;
      forall k | 1 <= k < |es|
        ensures Indented(es, level)[k] == ExceptionLine(es[k], level + k)
      {
        assert es[k] == es[1..][k - 1];
        assert tail[k - 1] == ExceptionLine(es[k], level + 1 + (k - 1));
      }
    }
  }

  /** print_exception writes the lines of the chain. */
  lemma {:induction false} PrintExceptionIndented(e: Exception, level: nat)
    ensures PrintException(e, level) == Indented(Chain(e), level)
  {
    match e.nested
    case StdNested(inner) =>
      PrintExceptionIndented(inner, level + 1);
      assert Chain(e)[1..] == Chain(inner);
    case _ =>
  }

  /** One line per exception of the chain, the k-th indented by level + k
      spaces and carrying the k-th what() text. */
  lemma PrintExceptionLines(e: Exception, level: nat)
    ensures |PrintException(e, level)| == |Chain(e)|
    ensures forall k :: 0 <= k < |Chain(e)| ==> PrintException(e, level)[k] == ExceptionLine(Chain(e)[k], level + k)
  {
    PrintExceptionIndented(e, level);
    IndentedLines(Chain(e), level);
  }

  class StatusListener {
    var isRunning: bool
    /** What was written to std::cerr. */
    var errors: seq<string>

    constructor ()
      ensures isRunning && errors == []
    {
      isRunning := true;
      errors := [];
    }

    /** onProcessingException: prints the exception chain and stops. */
    method OnProcessingException(ex: Exception)
      modifies this
      ensures !isRunning
      ensures errors == old(errors) + PrintException(ex, 0)
    {
      errors := errors + PrintException(ex, 0);
      isRunning := false;
    }

    /** onProcessingFinished: reports success and stops. */
    method OnProcessingFinished()
      modifies this
      ensures !isRunning
      ensures errors == old(errors) + ["Processing finished successfully\n"]
    {
      errors := errors + ["Processing finished successfully\n"];
      isRunning := false;
    }

    /** isRunning: reads the flag and changes nothing. */
    method IsRunning() returns (ret: bool)
      ensures ret == isRunning
    {
      ret := isRunning;
    }
  }
}
